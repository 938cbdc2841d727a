/**
 * `ListProcessesCommand`: the table header, then one row per process of the snapshot.
 */
module Listing {
  import opened Wrappers
  import opened Text
  import opened Console
  import opened Seqs

  /** `PROCESSES_TABLE_HEADER`; `WriteLine` adds a second line break after it. */
  const Header := "PID\t\tThread Count\tName\n"

  /** The separator after the pid: one tab when its decimal string is longer than seven
      characters, two otherwise. That is one tab exactly for pids of at least eight
      digits, or negative pids of at least seven digits. */
  function Gap(pid: int): (g: string)
    ensures g == "\t" <==> pid >= 10000000 || pid <= -1000000
    ensures g == "\t\t" <==> -1000000 < pid < 10000000
  {
    DecimalLongerThanSeven(pid);
    if |DecimalString(pid)| > 7 then "\t" else "\t\t"
  }

  /** One table row: pid, gap, thread count, two tabs, full path. It starts with the pid
      and ends with the full path. */
  function Row(p: ProcessRecord): (r: string)
    ensures |r| == |DecimalString(p.pid)| + |Gap(p.pid)| + |DecimalString(p.threadCount)| + 2 + |p.path|
    ensures DecimalString(p.pid) <= r
    ensures r[|r| - |p.path|..] == p.path
  {
    DecimalString(p.pid) + Gap(p.pid) + DecimalString(p.threadCount) + "\t\t" + p.path
  }

  /** The line the loop prints for one process. */
  function RowLine(p: ProcessRecord): seq<Effect> {
    [WriteLine(Row(p))]
  }

  function Rows(processes: seq<ProcessRecord>): seq<Effect> {
    FlatMap(RowLine, processes)
  }

  /** Everything the command prints for one snapshot. */
  function ListSpec(processes: seq<ProcessRecord>): seq<Effect> {
    [WriteLine(Header)] + Rows(processes)
  }

  /** The header comes first, then exactly one row per process in snapshot order; the
      listing prints and does nothing else. An empty snapshot prints only the header. */
  lemma ListShape(processes: seq<ProcessRecord>)
    ensures |ListSpec(processes)| == |processes| + 1
    ensures ListSpec(processes)[0] == WriteLine(Header)
    ensures forall k :: 0 <= k < |processes| ==> ListSpec(processes)[k + 1] == WriteLine(Row(processes[k]))
    ensures forall e :: e in ListSpec(processes) ==> e.WriteLine?
  {
    var rows := Rows(processes);
    RowsAt(processes);
    RowsOnlyWrite(processes);
    var all := ListSpec(processes);
    assert all == [WriteLine(Header)] + rows;
    assert forall k :: 0 <= k < |processes| ==> all[k + 1] == rows[k];
    assert forall e :: e in all ==> e == WriteLine(Header) || e in rows;
  }

  lemma RowsOnlyWrite(processes: seq<ProcessRecord>)
    ensures forall e :: e in Rows(processes) ==> e.WriteLine?
  {
    forall e | e in Rows(processes)
      ensures e.WriteLine?
    {
      FlatMapFrom(RowLine, processes, e);
    }
  }

  lemma RowsAt(processes: seq<ProcessRecord>)
    ensures |Rows(processes)| == |processes|
    ensures forall k :: 0 <= k < |processes| ==> Rows(processes)[k] == WriteLine(Row(processes[k]))
  {
    FlatMapSinglesAt(RowLine, processes);
  }

  /** Splitting a row at its tabs recovers the pid and thread-count columns: the pid, an
      empty field when the gap is two tabs, the thread count, an empty field, and then the
      path's own tab-separated pieces. */
  lemma RowFields(p: ProcessRecord)
    ensures Split(Row(p), '\t') ==
      [DecimalString(p.pid)] + (if |DecimalString(p.pid)| > 7 then [] else [""]) +
      [DecimalString(p.threadCount), ""] + Split(p.path, '\t')
  {
    var d, t := DecimalString(p.pid), DecimalString(p.threadCount);
    DigitsHaveNoTab(p.pid);
    DigitsHaveNoTab(p.threadCount);
    if |d| > 7 {
      OneTabFields(d, t, p.path);
    } else {
      TwoTabFields(d, t, p.path);
    }
  }

  /** A row with the one-tab gap. */
  lemma OneTabFields(d: string, t: string, path: string)
    requires '\t' !in d && '\t' !in t
    ensures Split(d + "\t" + t + "\t\t" + path, '\t') == [d] + [t, ""] + Split(path, '\t')
  {
    var rest := t + ['\t'] + ("" + ['\t'] + path);
    CountFields(t, path);
    SplitField(d, rest, '\t');
    RowLong(d, t, path);
  }

  /** A row with the two-tab gap. */
  lemma TwoTabFields(d: string, t: string, path: string)
    requires '\t' !in d && '\t' !in t
    ensures Split(d + "\t\t" + t + "\t\t" + path, '\t') == [d] + [""] + [t, ""] + Split(path, '\t')
  {
    var rest := t + ['\t'] + ("" + ['\t'] + path);
    CountFields(t, path);
    SplitField("", rest, '\t');
    SplitField(d, "" + ['\t'] + rest, '\t');
    RowShort(d, t, path);
  }

  /** The thread-count column and what follows it. */
  lemma CountFields(t: string, path: string)
    requires '\t' !in t
    ensures Split(t + ['\t'] + ("" + ['\t'] + path), '\t') == [t, ""] + Split(path, '\t')
  {
    var tail := "" + ['\t'] + path;
    var pieces := Split(path, '\t');
    SplitField("", path, '\t');
    SplitField(t, tail, '\t');
    assert [t] + ([""] + pieces) == [t, ""] + pieces;
  }

  lemma RowLong(d: string, t: string, path: string)
    ensures d + "\t" + t + "\t\t" + path == d + ['\t'] + (t + ['\t'] + ("" + ['\t'] + path))
  {
  }

  lemma RowShort(d: string, t: string, path: string)
    ensures d + "\t\t" + t + "\t\t" + path == d + ['\t'] + ("" + ['\t'] + (t + ['\t'] + ("" + ['\t'] + path)))
  {
  }

  /** The first tab-separated field of a row reads back as the row's pid. */
  lemma RowPid(p: ProcessRecord)
    ensures ParseDecimal(Split(Row(p), '\t')[0]) == Some(p.pid)
  {
    RowFields(p);
    DecimalRoundTrip(p.pid);
  }

  lemma DigitsHaveNoTab(i: int)
    ensures '\t' !in DecimalString(i)
  {
    if i < 0 {
      var digits := NatDigits(-i);
      assert forall k :: 0 <= k < |digits| ==> IsDigit(digits[k]);
      assert DecimalString(i) == ['-'] + digits;
    }
  }

  /** `ListProcessesCommand` on the snapshot `processes`. */
  method ListProcessesCommand(processes: seq<ProcessRecord>) returns (effects: seq<Effect>)
    ensures effects == ListSpec(processes)
  {
    effects := [WriteLine(Header)];
    var i := 0;
    while i < |processes|
      invariant 0 <= i <= |processes|
      invariant effects == [WriteLine(Header)] + Rows(processes[..i])
    {
      var row := FormatRow(processes[i]);
      ListStep(processes, i);
      effects := effects + [WriteLine(row)];
      i := i + 1;
    }
    assert processes[..i] == processes;
  }

  /** One more process adds its row at the end of the listing. */
  lemma ListStep(processes: seq<ProcessRecord>, i: nat)
    requires i < |processes|
    ensures [WriteLine(Header)] + Rows(processes[..i + 1]) ==
      [WriteLine(Header)] + Rows(processes[..i]) + [WriteLine(Row(processes[i]))]
  {
    FlatMapStep(RowLine, processes, i);
  }

  /** The body of the loop for one process: the row it prints. */
  method FormatRow(p: ProcessRecord) returns (row: string)
    ensures row == Row(p)
  {
    var pid, threads := DecimalString(p.pid), DecimalString(p.threadCount);
    if |pid| > 7 {
      row := pid + "\t" + threads + "\t\t" + p.path;
    } else {
      row := pid + "\t\t" + threads + "\t\t" + p.path;
    }
  }
}
