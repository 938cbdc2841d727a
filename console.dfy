/**
 * What the program sees of its surroundings. The console is a sequence of input lines
 * (reading past the end yields null, as `Console.ReadLine` does at end of input) and a
 * trace of output effects; the platform process API is a snapshot of process records
 * per query, and killing or starting a process is an effect recorded in the trace.
 */
module Console {
  import opened Wrappers

  /** One entry of a process snapshot (`ProcessInfo`): its id, thread count and full path. */
  datatype ProcessRecord = ProcessRecord(pid: int, threadCount: int, path: string)

  /** One observable action, in the order the program performs it. */
  datatype Effect =
    | Write(text: string)         // Console.Write
    | WriteLine(text: string)     // Console.WriteLine
    | KillProcess(pid: int)       // ProcessInfo.Kill on the process with this id
    | StartProcess(path: string)  // Process.Start with this file name

  /** The runtime exceptions the program can raise; none of them is caught. */
  datatype Fault =
    | IndexOutOfRange   // an argument array read past its end
    | NullReference     // ToLower called on the null that ReadLine returns at end of input

  /** What a handler did: all its effects, or the effects before it faulted. */
  datatype Outcome =
    | Completed(effects: seq<Effect>)
    | Faulted(effects: seq<Effect>, fault: Fault)

  /** `Console.ReadLine` on the input lines, with `pos` lines already consumed:
      the next line and the new position, or null once the input is exhausted. */
  function ReadLine(inputs: seq<string>, pos: nat): (Option<string>, nat) {
    if pos < |inputs| then (Some(inputs[pos]), pos + 1) else (None, pos)
  }
}
