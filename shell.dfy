/**
 * `Main`: print the manual, then prompt, read an entry and dispatch it, until a quit is
 * confirmed. The manual text is a parameter: the newer copy builds it from a constants
 * class that is not part of this model, the older copy spells it out (`LegacyManual`).
 * The platform is a function from the number of earlier process queries to the
 * snapshot that the next `GetProcesses` call returns.
 */
module Shell {
  import opened Wrappers
  import opened Text
  import opened Console
  import opened Entry
  import opened Killing
  import opened Listing
  import opened Confirmation
  import opened Manual

  const CommandPrompt := "> "
  const InvalidCommand := "Invalid command!"

  /** How a session ends: a confirmed quit; an uncaught exception; or the input ran out,
      where the program itself would prompt forever on the nulls `ReadLine` returns. */
  datatype Ending = Quitted | Crashed(fault: Fault) | InputEnded

  /** Everything a session did, and how it ended. */
  datatype Session = Session(trace: seq<Effect>, ending: Ending)

  /** The result of dispatching one entry: go on from input position `next` after
      `queries` process queries, or end the session. */
  datatype Step =
    | Continue(effects: seq<Effect>, next: nat, queries: nat)
    | Stop(effects: seq<Effect>, ending: Ending)

  function Then(prefix: seq<Effect>, s: Session): Session {
    Session(prefix + s.trace, s.ending)
  }

  function StartEffects(path: string): seq<Effect> {
    [StartProcess(path), WriteLine("Started: " + path)]
  }

  /** The `switch` in `Main` for one entry, read at the position before `next`.
      Only a confirmed quit ends the session normally; an unknown command prints one
      complaint and nothing else; only `kill` kills and only `start` starts. */
  function Execute(manual: string, entry: Entry, inputs: seq<string>, next: nat,
                   snapshots: nat -> seq<ProcessRecord>, queries: nat): (s: Step)
    ensures s.Continue? ==> s.next >= next
    ensures s.Stop? ==> s.ending != InputEnded
    ensures s.Stop? && s.ending == Quitted <==>
      CommandOf(entry.name) == Quit && QuitSpec(inputs, next).Answered? && QuitSpec(inputs, next).confirmed
    ensures CommandOf(entry.name) == Unknown ==> s == Continue([WriteLine(InvalidCommand)], next, queries)
    ensures CommandOf(entry.name) != Kill ==> forall e :: e in s.effects ==> !e.KillProcess?
    ensures CommandOf(entry.name) != Start ==> forall e :: e in s.effects ==> !e.StartProcess?
  {
    match CommandOf(entry.name)
    case Man => Continue([WriteLine(manual)], next, queries)
    case List =>
      ListShape(snapshots(queries));
      Continue(ListSpec(snapshots(queries)), next, queries + 1)
    case Kill =>
      KillNeverStarts(snapshots(queries), entry.arguments);
      (match KillSpec(snapshots(queries), entry.arguments)
       case Completed(effects) => Continue(effects, next, queries + 1)
       case Faulted(effects, fault) => Stop(effects, Crashed(fault)))
    case Start =>
      if entry.arguments == [] then Stop([], Crashed(IndexOutOfRange))
      else Continue(StartEffects(entry.arguments[0]), next, queries)
    case Quit =>
      QuitOnlyPrompts(inputs, next);
      (match QuitSpec(inputs, next)
       case Answered(confirmed, after, effects) =>
         if confirmed then Stop(effects, Quitted) else Continue(effects, after, queries)
       case Unanswered(effects) => Stop(effects, Crashed(NullReference)))
    case Unknown => Continue([WriteLine(InvalidCommand)], next, queries)
  }

  /** One turn of the loop at input position `pos`, after `queries` process queries:
      prompt, read a line, and dispatch it unless it is empty. */
  datatype Turn =
    | Prompted(effects: seq<Effect>, next: nat, queries: nat)
    | Ended(effects: seq<Effect>, ending: Ending)

  /** A turn that goes on always consumes input; one that ends after reading an entry
      ends the way the dispatch ended. */
  function TurnAt(manual: string, inputs: seq<string>, pos: nat,
                  snapshots: nat -> seq<ProcessRecord>, queries: nat): (t: Turn)
    ensures t.Prompted? ==> pos < t.next <= |inputs| + 1
    ensures t.Ended? && t.ending == InputEnded <==> pos >= |inputs|
    ensures |t.effects| >= 1 && t.effects[0] == Write(CommandPrompt)
    ensures t.Ended? && t.ending == InputEnded ==> t.effects == [Write(CommandPrompt)]
  {
    if pos >= |inputs| then Ended([Write(CommandPrompt)], InputEnded)
    else
      match Parse(inputs[pos])
      case None => Prompted([Write(CommandPrompt)], pos + 1, queries)
      case Some(entry) =>
        match Execute(manual, entry, inputs, pos + 1, snapshots, queries)
        case Continue(effects, next, q) => Prompted([Write(CommandPrompt)] + effects, next, q)
        case Stop(effects, ending) => Ended([Write(CommandPrompt)] + effects, ending)
  }

  /** The loop from input position `pos` on, after `queries` process queries. Every
      pass starts with the prompt; when the input runs out the last thing written is the
      prompt nobody answers. */
  function RunFrom(manual: string, inputs: seq<string>, pos: nat,
                   snapshots: nat -> seq<ProcessRecord>, queries: nat): (r: Session)
    ensures |r.trace| >= 1 && r.trace[0] == Write(CommandPrompt)
    ensures r.ending == InputEnded ==> r.trace[|r.trace| - 1] == Write(CommandPrompt)
    decreases |inputs| + 1 - pos
  {
    match TurnAt(manual, inputs, pos, snapshots, queries)
    case Prompted(effects, next, q) => Then(effects, RunFrom(manual, inputs, next, snapshots, q))
    case Ended(effects, ending) => Session(effects, ending)
  }

  /** A whole session over the given input lines: whatever the input, it prints the
      manual and then the first prompt. */
  function Run(manual: string, inputs: seq<string>, snapshots: nat -> seq<ProcessRecord>): (r: Session)
    ensures |r.trace| >= 2 && r.trace[..2] == [WriteLine(manual), Write(CommandPrompt)]
  {
    Then([WriteLine(manual)], RunFrom(manual, inputs, 0, snapshots, 0))
  }

  /** A session of the older copy opens with its manual, which is a box. */
  lemma LegacySessionShowsBox(inputs: seq<string>, snapshots: nat -> seq<ProcessRecord>)
    ensures Run(LegacyManual, inputs, snapshots).trace[0] == WriteLine(ManualText(LegacyLines))
    ensures Boxed(LegacyLines)
  {
    LegacyBoxed();
  }

  /** `man` prints the manual again and reads nothing more. */
  lemma ManRepeatsManual(manual: string, entry: Entry, inputs: seq<string>, next: nat,
                         snapshots: nat -> seq<ProcessRecord>, queries: nat)
    requires CommandOf(entry.name) == Man
    ensures Execute(manual, entry, inputs, next, snapshots, queries) == Continue([WriteLine(manual)], next, queries)
  {
  }

  /** An entry that selects the quit handler. */
  predicate IsQuitEntry(line: string) {
    Parse(line).Some? && CommandOf(Parse(line).value.name) == Quit
  }

  predicate IsKillEntry(line: string) {
    Parse(line).Some? && CommandOf(Parse(line).value.name) == Kill
  }

  /** Without a `quit` entry the session never ends with a confirmed quit. */
  lemma {:induction false} NoQuitEntryNeverQuits(manual: string, inputs: seq<string>, pos: nat,
                                                 snapshots: nat -> seq<ProcessRecord>, queries: nat)
    requires forall j :: pos <= j < |inputs| ==> !IsQuitEntry(inputs[j])
    ensures RunFrom(manual, inputs, pos, snapshots, queries).ending != Quitted
    decreases |inputs| + 1 - pos
  {
    match TurnAt(manual, inputs, pos, snapshots, queries)
    case Prompted(effects, next, q) =>
      NoQuitEntryNeverQuits(manual, inputs, next, snapshots, q);
    case Ended(effects, ending) =>
  }

  /** Without a `kill` entry the session kills no process. */
  lemma {:induction false} NoKillEntryNoKills(manual: string, inputs: seq<string>, pos: nat,
                                              snapshots: nat -> seq<ProcessRecord>, queries: nat)
    requires forall j :: pos <= j < |inputs| ==> !IsKillEntry(inputs[j])
    ensures forall e :: e in RunFrom(manual, inputs, pos, snapshots, queries).trace ==> !e.KillProcess?
    decreases |inputs| + 1 - pos
  {
    match TurnAt(manual, inputs, pos, snapshots, queries)
    case Prompted(effects, next, q) =>
      NoKillEntryNoKills(manual, inputs, next, snapshots, q);
    case Ended(effects, ending) =>
  }

  /** An empty line dispatches nothing: the loop prompts again at the next line. */
  lemma EmptyEntrySkipped(manual: string, inputs: seq<string>, pos: nat,
                          snapshots: nat -> seq<ProcessRecord>, queries: nat)
    requires pos < |inputs| && inputs[pos] == ""
    ensures RunFrom(manual, inputs, pos, snapshots, queries) ==
      Then([Write(CommandPrompt)], RunFrom(manual, inputs, pos + 1, snapshots, queries))
  {
  }

  /** `start` launches its first argument once and confirms it; without an argument the
      session faults before launching anything. */
  lemma StartLaunchesOnce(manual: string, entry: Entry, inputs: seq<string>, next: nat,
                          snapshots: nat -> seq<ProcessRecord>, queries: nat)
    requires CommandOf(entry.name) == Start
    ensures var s := Execute(manual, entry, inputs, next, snapshots, queries);
      if entry.arguments == [] then s == Stop([], Crashed(IndexOutOfRange))
      else s == Continue([StartProcess(entry.arguments[0]), WriteLine("Started: " + entry.arguments[0])], next, queries)
  {
  }

  /** The `switch` of `Main` on one entry whose tokens are `command` and `arguments`. */
  method Dispatch(manual: string, command: string, arguments: seq<string>, inputs: seq<string>, next: nat,
                  snapshots: nat -> seq<ProcessRecord>, queries: nat) returns (step: Step)
    ensures step == Execute(manual, Entry(command, arguments), inputs, next, snapshots, queries)
  {
    match CommandOf(command) {
      case Man =>
        step := Continue([WriteLine(manual)], next, queries);
      case List =>
        var effects := ListProcessesCommand(snapshots(queries));
        step := Continue(effects, next, queries + 1);
      case Kill =>
        var outcome := KillProcessCommand(snapshots(queries), arguments);
        match outcome {
          case Completed(effects) => step := Continue(effects, next, queries + 1);
          case Faulted(effects, fault) => step := Stop(effects, Crashed(fault));
        }
      case Start =>
        if |arguments| == 0 {
          step := Stop([], Crashed(IndexOutOfRange));
        } else {
          step := Continue(StartEffects(arguments[0]), next, queries);
        }
      case Quit =>
        var reply := QuitCommand(inputs, next);
        match reply {
          case Answered(quit, after, effects) =>
            step := if quit then Stop(effects, Quitted) else Continue(effects, after, queries);
          case Unanswered(effects) =>
            step := Stop(effects, Crashed(NullReference));
        }
      case Unknown =>
        step := Continue([WriteLine(InvalidCommand)], next, queries);
    }
  }

  /** A turn on a non-empty line is the prompt followed by the dispatch of its entry. */
  lemma TurnOfEntry(manual: string, inputs: seq<string>, pos: nat,
                    snapshots: nat -> seq<ProcessRecord>, queries: nat)
    requires pos < |inputs| && inputs[pos] != ""
    ensures var step := Execute(manual, Parse(inputs[pos]).value, inputs, pos + 1, snapshots, queries);
      TurnAt(manual, inputs, pos, snapshots, queries) ==
        if step.Stop? then Ended([Write(CommandPrompt)] + step.effects, step.ending)
        else Prompted([Write(CommandPrompt)] + step.effects, step.next, step.queries)
  {
  }

  /** One pass through the body of the `while (true)` in `Main`. */
  method TakeTurn(manual: string, inputs: seq<string>, pos: nat,
                  snapshots: nat -> seq<ProcessRecord>, queries: nat) returns (turn: Turn)
    ensures turn == TurnAt(manual, inputs, pos, snapshots, queries)
  {
    var prompt := [Write(CommandPrompt)];
    var (line, next) := ReadLine(inputs, pos);
    if line.None? {
      // `string.IsNullOrEmpty(null)` holds on every later pass as well.
      return Ended(prompt, InputEnded);
    }
    var entry := line.value;
    if entry == "" {
      return Prompted(prompt, next, queries);
    }
    turn := EntryTurn(manual, inputs, pos, snapshots, queries);
  }

  /** The rest of a pass on a non-empty line: split the entry and dispatch it. */
  method EntryTurn(manual: string, inputs: seq<string>, pos: nat,
                   snapshots: nat -> seq<ProcessRecord>, queries: nat) returns (turn: Turn)
    requires pos < |inputs| && inputs[pos] != ""
    ensures turn == TurnAt(manual, inputs, pos, snapshots, queries)
  {
    var command, arguments := Tokens(inputs[pos]);
    var step := Dispatch(manual, command, arguments, inputs, pos + 1, snapshots, queries);
    TurnOfEntry(manual, inputs, pos, snapshots, queries);
    match step {
      case Stop(effects, ending) =>
        turn := Ended([Write(CommandPrompt)] + effects, ending);
      case Continue(effects, after, q) =>
        turn := Prompted([Write(CommandPrompt)] + effects, after, q);
    }
  }

  /** `Main` over the input lines `inputs`, with the platform answering process queries
      from `snapshots`. */
  method RunSession(manual: string, inputs: seq<string>, snapshots: nat -> seq<ProcessRecord>)
    returns (session: Session)
    ensures session == Run(manual, inputs, snapshots)
  {
    var trace := [WriteLine(manual)];
    var pos, queries := 0, 0;
    while true
      invariant Then(trace, RunFrom(manual, inputs, pos, snapshots, queries)) == Run(manual, inputs, snapshots)
      decreases |inputs| + 1 - pos
    {
      var turn := TakeTurn(manual, inputs, pos, snapshots, queries);
      match turn {
        case Ended(effects, ending) =>
          return Session(trace + effects, ending);
        case Prompted(effects, next, q) =>
          ThenTwice(trace, effects, RunFrom(manual, inputs, next, snapshots, q));
          trace := trace + effects;
          pos, queries := next, q;
      }
    }
  }

  /** `entry.Split(' ')`, `splitEntry[0]` and `splitEntry.Skip(1).ToArray()`. */
  method Tokens(entry: string) returns (command: string, arguments: seq<string>)
    requires entry != ""
    ensures Parse(entry) == Some(Entry(command, arguments))
  {
    var splitEntry := Split(entry, ' ');
    command := splitEntry[0];
    arguments := splitEntry[1..];
  }

  lemma ThenTwice(a: seq<Effect>, b: seq<Effect>, s: Session)
    ensures Then(a, Then(b, s)) == Then(a + b, s)
  {
    assert a + (b + s.trace) == (a + b) + s.trace;
  }
}
