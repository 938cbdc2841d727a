/**
 * The manual both copies print at start-up and on `man`: a box of ten lines, 56
 * characters wide, joined by line breaks. The newer copy puts a title built from its
 * constants class into the second line; the older copy spells the whole text out.
 */
module Manual {
  import opened Text

  /** The width of every line of the box. */
  const Width := 56

  /** The lines of the newer copy's manual around `title`. */
  function ManualLines(title: string): seq<string> {
    [ Framing("******************************************************"),
      Framing("              " + title + "              "),
      Framing("                                                      "),
      Framing(" MAN            Launches this manual.                 "),
      Framing(" LIST           Lists all active processes.           "),
      Framing(" KILL -n <path> Kills a process by its <path>.        "),
      Framing(" KILL -p <pid>  Kills a process by its <pid>.         "),
      Framing(" START <path>   Starts a process by its <path>.       "),
      Framing(" QUIT           Quits the application.                "),
      Framing("******************************************************") ]
  }

  /** The text `WriteLine` prints: the lines joined by line breaks. */
  function ManualText(lines: seq<string>): string
    requires |lines| >= 1
  {
    Join(lines, '\n')
  }

  /** The older copy's manual, title included. */
  const LegacyLines: seq<string> :=
    [ Framing("******************************************************"),
      Framing("                PROCESS MANAGER v1.0.0                "),
      Framing("                                                      "),
      Framing(" MAN            Launches this manual.                 "),
      Framing(" LIST           Lists all active processes.           "),
      Framing(" KILL -n <name> Kills a process by its <name>.        "),
      Framing(" KILL -p <pid>  Kills a process by its <pid>.         "),
      Framing(" START <path>   Starts a process by its <path>.       "),
      Framing(" QUIT           Quits the application.                "),
      Framing("******************************************************") ]

  const LegacyManual: string := ManualText(LegacyLines)

  /** A line between two '*' frame characters. */
  function Framing(inner: string): (line: string)
    ensures |line| == |inner| + 2 && line[0] == '*' && line[|line| - 1] == '*'
  {
    "*" + inner + "*"
  }

  /** A line of the box: exactly `Width` characters, framed by '*'. */
  predicate Framed(line: string) {
    |line| == Width && line[0] == '*' && line[Width - 1] == '*'
  }

  /** A box: every line is framed. */
  predicate Boxed(lines: seq<string>) {
    forall k :: 0 <= k < |lines| ==> Framed(lines[k])
  }

  /** The newer copy's manual is a box exactly when the title is 26 characters long;
      any other title shifts the right-hand frame of the title line. */
  lemma ManualBoxedIff(title: string)
    ensures Boxed(ManualLines(title)) <==> |title| == 26
  {
    var lines := ManualLines(title);
    if |title| == 26 {
      assert lines[..5] + lines[5..] == lines;
      FiveFramed(lines[..5]);
      FiveFramed(lines[5..]);
    } else {
      assert |lines[1]| != Width;
    }
  }

  lemma FiveFramed(lines: seq<string>)
    requires |lines| == 5
    requires Framed(lines[0]) && Framed(lines[1]) && Framed(lines[2]) && Framed(lines[3]) && Framed(lines[4])
    ensures Boxed(lines)
  {
  }

  /** The older copy's manual is a box. */
  lemma LegacyBoxed()
    ensures Boxed(LegacyLines)
  {
    var lines := LegacyLines;
    assert Framed(lines[0]) && Framed(lines[1]) && Framed(lines[2]) && Framed(lines[3]) && Framed(lines[4]);
    assert Framed(lines[5]) && Framed(lines[6]) && Framed(lines[7]) && Framed(lines[8]) && Framed(lines[9]);
  }
}
