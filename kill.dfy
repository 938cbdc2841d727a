/**
 * `KillProcessCommand`: kill every process of a snapshot whose full path (flag `-n`)
 * or whose decimal process id (flag `-p`) equals the second argument.
 */
module Killing {
  import opened Text
  import opened Console
  import opened Seqs

  const InvalidArguments := "Invalid arguments! Please try again."

  /** What a valid flag compares against: the full path, or the pid's decimal string. */
  datatype Selector = ByPath(path: string) | ByPid(pidText: string)

  predicate Selects(sel: Selector, p: ProcessRecord) {
    match sel
    case ByPath(x) => p.path == x
    case ByPid(x) => DecimalString(p.pid) == x
  }

  /** The selector of a valid flag (`-n` when `byPath`, `-p` otherwise) and key. */
  function SelectorFor(byPath: bool, key: string): Selector {
    if byPath then ByPath(key) else ByPid(key)
  }

  /** The processes the selector picks, in snapshot order: a process is selected
      exactly when it is in the snapshot and the selector picks it. */
  function Select(processes: seq<ProcessRecord>, sel: Selector): (r: seq<ProcessRecord>)
    ensures forall p :: p in r <==> p in processes && Selects(sel, p)
  {
    FilterCounts(p => Selects(sel, p), processes);
    Filter(p => Selects(sel, p), processes)
  }

  /** The selection holds every selected process as often as the snapshot does, and
      nothing else. */
  lemma SelectCounts(processes: seq<ProcessRecord>, sel: Selector)
    ensures forall p :: multiset(Select(processes, sel))[p] == if Selects(sel, p) then multiset(processes)[p] else 0
  {
    FilterCounts(p => Selects(sel, p), processes);
  }

  function KilledLine(p: ProcessRecord): string {
    "Killed: " + DecimalString(p.pid) + " | " + p.path
  }

  /** What the loop does for one victim: kill it, then report it. */
  function KillPair(p: ProcessRecord): seq<Effect> {
    [KillProcess(p.pid), WriteLine(KilledLine(p))]
  }

  /** For each victim in turn: kill it, then report it. */
  function KillEffects(victims: seq<ProcessRecord>): seq<Effect> {
    FlatMap(KillPair, victims)
  }

  /** One more process of the snapshot adds its kill and its line when it is selected. */
  lemma KillEffectsStep(processes: seq<ProcessRecord>, i: nat, sel: Selector)
    requires i < |processes|
    ensures KillEffects(Select(processes[..i + 1], sel)) ==
      KillEffects(Select(processes[..i], sel)) + if Selects(sel, processes[i]) then KillPair(processes[i]) else []
  {
    var p := processes[i];
    var keep := q => Selects(sel, q);
    assert processes[..i + 1] == processes[..i] + [p];
    FilterAppend(keep, processes[..i], [p]);
    assert Filter(keep, [p]) == if Selects(sel, p) then [p] else [];
    FlatMapAppend(KillPair, Select(processes[..i], sel), Filter(keep, [p]));
    assert FlatMap(KillPair, [p]) == KillPair(p) + FlatMap(KillPair, []);
  }

  /** Exactly one kill and one "Killed" line per victim, the line right after its kill,
      victims in order. */
  lemma KillEffectsAt(victims: seq<ProcessRecord>)
    ensures |KillEffects(victims)| == 2 * |victims|
    ensures forall k :: 0 <= k < |victims| ==>
      KillEffects(victims)[2 * k] == KillProcess(victims[k].pid) &&
      KillEffects(victims)[2 * k + 1] == WriteLine(KilledLine(victims[k]))
  {
    FlatMapPairsAt(KillPair, victims);
  }

  /** The loops of a valid flag: they compare `arguments[1]` with each process in turn,
      so a missing second argument faults only when there is a process to compare. */
  function KillMatching(processes: seq<ProcessRecord>, arguments: seq<string>, byPath: bool): (r: Outcome)
    ensures r.Faulted? <==> processes != [] && |arguments| < 2
    ensures r.Faulted? ==> r.effects == [] && r.fault == IndexOutOfRange
    ensures processes == [] ==> r == Completed([])
  {
    if processes == [] then Completed([])
    else if |arguments| < 2 then Faulted([], IndexOutOfRange)
    else Completed(KillEffects(Select(processes, SelectorFor(byPath, arguments[1]))))
  }

  /** The whole command on one snapshot. It faults exactly when the argument array is
      empty, or when it holds only a valid flag and the snapshot is not empty; it kills
      nothing before faulting. */
  function KillSpec(processes: seq<ProcessRecord>, arguments: seq<string>): (r: Outcome)
    ensures r.Faulted? <==>
      |arguments| == 0 ||
      (|arguments| == 1 && processes != [] && (Lower(arguments[0]) == "-n" || Lower(arguments[0]) == "-p"))
    ensures r.Faulted? ==> r.effects == [] && r.fault == IndexOutOfRange
  {
    if |arguments| == 0 then Faulted([], IndexOutOfRange)
    else if Lower(arguments[0]) == "-n" then KillMatching(processes, arguments, true)
    else if Lower(arguments[0]) == "-p" then KillMatching(processes, arguments, false)
    else Completed([WriteLine(InvalidArguments)])
  }

  /** `kill -n X`: the victims are exactly the processes whose path is X, each killed and
      reported once in snapshot order; no match kills and prints nothing. */
  lemma KillByPathKillsMatches(processes: seq<ProcessRecord>, flag: string, x: string, rest: seq<string>)
    requires Lower(flag) == "-n"
    ensures var r := KillSpec(processes, [flag, x] + rest);
      var victims := Select(processes, ByPath(x));
      r.Completed? &&
      (forall p :: multiset(victims)[p] == if p.path == x then multiset(processes)[p] else 0) &&
      |r.effects| == 2 * |victims| &&
      forall k :: 0 <= k < |victims| ==>
        r.effects[2 * k] == KillProcess(victims[k].pid) &&
        r.effects[2 * k + 1] == WriteLine(KilledLine(victims[k]))
  {
    var victims := Select(processes, ByPath(x));
    SelectCounts(processes, ByPath(x));
    KillEffectsAt(victims);
    if processes == [] {
      assert victims == [];
    }
  }

  /** `kill -p N` with N the decimal string of `q`: the victims are exactly the processes
      whose id is `q`. */
  lemma KillByPidKillsThatPid(processes: seq<ProcessRecord>, flag: string, q: int, rest: seq<string>)
    requires Lower(flag) == "-p"
    ensures var r := KillSpec(processes, [flag, DecimalString(q)] + rest);
      var victims := Select(processes, ByPid(DecimalString(q)));
      r == Completed(KillEffects(victims)) &&
      forall p :: multiset(victims)[p] == if p.pid == q then multiset(processes)[p] else 0
  {
    var victims := Select(processes, ByPid(DecimalString(q)));
    SelectCounts(processes, ByPid(DecimalString(q)));
    forall p: ProcessRecord
      ensures multiset(victims)[p] == if p.pid == q then multiset(processes)[p] else 0
    {
      DecimalInjective(p.pid, q);
    }
  }

  /** `kill -p X` where X is not how any integer prints ("007", "+7", "7 ") kills nothing. */
  lemma KillByPidNonCanonical(processes: seq<ProcessRecord>, flag: string, x: string, rest: seq<string>)
    requires Lower(flag) == "-p"
    requires forall i :: DecimalString(i) != x
    ensures KillSpec(processes, [flag, x] + rest) == Completed([])
  {
    var victims := Select(processes, ByPid(x));
    SelectCounts(processes, ByPid(x));
    if victims != [] {
      assert victims[0] in victims;
    }
  }

  /** When exactly one process has a given id, `kill -p` with that id kills it once and
      prints one confirmation line. */
  lemma UniquePidKilledOnce(processes: seq<ProcessRecord>, flag: string, j: nat, rest: seq<string>)
    requires Lower(flag) == "-p"
    requires j < |processes|
    requires forall i :: 0 <= i < |processes| && i != j ==> processes[i].pid != processes[j].pid
    ensures KillSpec(processes, [flag, DecimalString(processes[j].pid)] + rest) ==
      Completed([KillProcess(processes[j].pid), WriteLine(KilledLine(processes[j]))])
  {
    var p := processes[j];
    SelectUniquePid(processes, j);
    var arguments := [flag, DecimalString(p.pid)] + rest;
    assert arguments[0] == flag && arguments[1] == DecimalString(p.pid);
    assert FlatMap(KillPair, [p]) == KillPair(p) + FlatMap(KillPair, [p][1..]);
    assert [p][1..] == [];
  }

  lemma SelectUniquePid(processes: seq<ProcessRecord>, j: nat)
    requires j < |processes|
    requires forall i :: 0 <= i < |processes| && i != j ==> processes[i].pid != processes[j].pid
    ensures Select(processes, ByPid(DecimalString(processes[j].pid))) == [processes[j]]
  {
    var sel := ByPid(DecimalString(processes[j].pid));
    forall i | 0 <= i < |processes| && i != j
      ensures !Selects(sel, processes[i])
    {
      DecimalInjective(processes[i].pid, processes[j].pid);
    }
    FilterOnly(q => Selects(sel, q), processes, j);
  }

  /** The command kills and prints; it never starts a process. */
  lemma KillNeverStarts(processes: seq<ProcessRecord>, arguments: seq<string>)
    ensures forall e :: e in KillSpec(processes, arguments).effects ==> !e.StartProcess?
  {
    if |arguments| >= 2 {
      KillEffectsKinds(Select(processes, SelectorFor(Lower(arguments[0]) == "-n", arguments[1])));
    }
  }

  lemma KillEffectsKinds(victims: seq<ProcessRecord>)
    ensures forall e :: e in KillEffects(victims) ==> e.KillProcess? || e.WriteLine?
  {
    forall e | e in KillEffects(victims)
      ensures e.KillProcess? || e.WriteLine?
    {
      FlatMapFrom(KillPair, victims, e);
    }
  }

  /** Any flag other than `-n`/`-p` (in any case) kills nothing and prints one line. */
  lemma KillInvalidFlag(processes: seq<ProcessRecord>, flag: string, rest: seq<string>)
    requires Lower(flag) != "-n" && Lower(flag) != "-p"
    ensures KillSpec(processes, [flag] + rest) == Completed([WriteLine(InvalidArguments)])
  {
  }

  /** `KillProcessCommand(arguments)` on the snapshot `processes`. */
  method KillProcessCommand(processes: seq<ProcessRecord>, arguments: seq<string>) returns (r: Outcome)
    ensures r == KillSpec(processes, arguments)
  {
    if |arguments| == 0 {
      return Faulted([], IndexOutOfRange);
    }
    if Lower(arguments[0]) == "-n" {
      r := KillEach(processes, arguments, true);
    } else if Lower(arguments[0]) == "-p" {
      r := KillEach(processes, arguments, false);
    } else {
      r := Completed([WriteLine(InvalidArguments)]);
    }
  }

  /** One of the two `foreach` loops: compare each process with `arguments[1]` and kill
      it on a match. */
  method KillEach(processes: seq<ProcessRecord>, arguments: seq<string>, byPath: bool) returns (r: Outcome)
    ensures r == KillMatching(processes, arguments, byPath)
  {
    var effects: seq<Effect> := [];
    var i := 0;
    while i < |processes|
      invariant 0 <= i <= |processes|
      invariant i == 0 ==> effects == []
      invariant 0 < i ==> |arguments| >= 2
      invariant 0 < i ==> effects == KillEffects(Select(processes[..i], SelectorFor(byPath, arguments[1])))
    {
      if |arguments| < 2 {
        return Faulted(effects, IndexOutOfRange);
      }
      var p := processes[i];
      var hit := if byPath then p.path == arguments[1] else DecimalString(p.pid) == arguments[1];
      if hit {
        effects := effects + [KillProcess(p.pid), WriteLine("Killed: " + DecimalString(p.pid) + " | " + p.path)];
      }
      KillEffectsStep(processes, i, SelectorFor(byPath, arguments[1]));
      i := i + 1;
    }
    if processes != [] {
      assert processes[..i] == processes;
    }
    return Completed(effects);
  }
}
