/**
 * `QuitCommand`: ask for confirmation until the operator answers "y" or "n" in any
 * case; the first such answer decides. It reads from the same input as `Main`.
 */
module Confirmation {
  import opened Wrappers
  import opened Text
  import opened Console

  const Prompt := "Are you sure you want to quit? (Y/N): "
  const InvalidPrompt := "Invalid input! Are you sure you want to quit? (Y/N): "

  /** A line the dialog accepts as an answer. */
  predicate IsAnswer(line: string) {
    Lower(line) == "y" || Lower(line) == "n"
  }

  /** How the dialog ends: an answer, with the position after the line that gave it and
      what was written; or the input ran out, and `ToLower` on the null that `ReadLine`
      then returns throws. */
  datatype Reply =
    | Answered(confirmed: bool, next: nat, effects: seq<Effect>)
    | Unanswered(effects: seq<Effect>)

  function WithPrefix(prefix: seq<Effect>, r: Reply): Reply {
    match r
    case Answered(c, n, e) => Answered(c, n, prefix + e)
    case Unanswered(e) => Unanswered(prefix + e)
  }

  /** The reprompt loop from input position `pos` on. An answer is always the line just
      before `next`, and it confirms exactly when it is "y" in either case. */
  function Dialog(inputs: seq<string>, pos: nat): (r: Reply)
    ensures r.Answered? ==> pos < r.next <= |inputs| && IsAnswer(inputs[r.next - 1])
    ensures r.Answered? ==> (r.confirmed <==> Lower(inputs[r.next - 1]) == "y")
    ensures r.Answered? ==> |r.effects| == r.next - 1 - pos
    ensures r.Unanswered? ==> |r.effects| == if pos < |inputs| then |inputs| - pos else 0
    decreases |inputs| - pos
  {
    if pos >= |inputs| then Unanswered([])
    else if IsAnswer(inputs[pos]) then Answered(Lower(inputs[pos]) == "y", pos + 1, [])
    else WithPrefix([Write(InvalidPrompt)], Dialog(inputs, pos + 1))
  }

  /** The whole command: the first prompt, then the reprompt loop. It writes one prompt
      per line it reads and one more: for an answer at the line before `next`, `next - pos`
      prompts in all. */
  function QuitSpec(inputs: seq<string>, pos: nat): (r: Reply)
    ensures |r.effects| >= 1 && r.effects[0] == Write(Prompt)
    ensures r.Answered? ==> pos < r.next <= |inputs| && |r.effects| == r.next - pos
    ensures r.Answered? ==> (r.confirmed <==> Lower(inputs[r.next - 1]) == "y")
    ensures r.Unanswered? ==> |r.effects| == 1 + if pos < |inputs| then |inputs| - pos else 0
  {
    WithPrefix([Write(Prompt)], Dialog(inputs, pos))
  }

  function Repeat(e: Effect, n: nat): (r: seq<Effect>)
    ensures |r| == n && forall k :: 0 <= k < n ==> r[k] == e
  {
    if n == 0 then [] else [e] + Repeat(e, n - 1)
  }

  lemma WithPrefixTwice(a: seq<Effect>, b: seq<Effect>, r: Reply)
    ensures WithPrefix(a, WithPrefix(b, r)) == WithPrefix(a + b, r)
  {
    assert a + (b + r.effects) == (a + b) + r.effects;
  }

  /** The first answer from `pos` on decides: the result is "y" or not, the dialog
      consumes the lines up to and including that answer, and it reprompts once per
      line before it. */
  lemma QuitDecidedByFirstAnswer(inputs: seq<string>, pos: nat, i: nat)
    requires pos <= i < |inputs| && IsAnswer(inputs[i])
    requires forall j :: pos <= j < i ==> !IsAnswer(inputs[j])
    ensures QuitSpec(inputs, pos) ==
      Answered(Lower(inputs[i]) == "y", i + 1, [Write(Prompt)] + Repeat(Write(InvalidPrompt), i - pos))
  {
    DialogFirstAnswer(inputs, pos, i);
  }

  lemma {:induction false} DialogFirstAnswer(inputs: seq<string>, pos: nat, i: nat)
    requires pos <= i < |inputs| && IsAnswer(inputs[i])
    requires forall j :: pos <= j < i ==> !IsAnswer(inputs[j])
    ensures Dialog(inputs, pos) == Answered(Lower(inputs[i]) == "y", i + 1, Repeat(Write(InvalidPrompt), i - pos))
    decreases i - pos
  {
    if pos < i {
      DialogFirstAnswer(inputs, pos + 1, i);
      assert [Write(InvalidPrompt)] + Repeat(Write(InvalidPrompt), i - (pos + 1)) ==
        Repeat(Write(InvalidPrompt), i - pos);
    }
  }

  /** Without an answer left in the input, the dialog reprompts once per remaining line
      and then faults. */
  lemma QuitWithoutAnswer(inputs: seq<string>, pos: nat)
    requires pos <= |inputs|
    requires forall j :: pos <= j < |inputs| ==> !IsAnswer(inputs[j])
    ensures QuitSpec(inputs, pos) ==
      Unanswered([Write(Prompt)] + Repeat(Write(InvalidPrompt), |inputs| - pos))
  {
    DialogWithoutAnswer(inputs, pos);
  }

  lemma {:induction false} DialogWithoutAnswer(inputs: seq<string>, pos: nat)
    requires pos <= |inputs|
    requires forall j :: pos <= j < |inputs| ==> !IsAnswer(inputs[j])
    ensures Dialog(inputs, pos) == Unanswered(Repeat(Write(InvalidPrompt), |inputs| - pos))
    decreases |inputs| - pos
  {
    if pos < |inputs| {
      DialogWithoutAnswer(inputs, pos + 1);
      assert [Write(InvalidPrompt)] + Repeat(Write(InvalidPrompt), |inputs| - (pos + 1)) ==
        Repeat(Write(InvalidPrompt), |inputs| - pos);
    }
  }

  /** The dialog only writes prompts: it never kills or starts a process. */
  lemma {:induction false} QuitOnlyPrompts(inputs: seq<string>, pos: nat)
    ensures forall e :: e in QuitSpec(inputs, pos).effects ==> e.Write?
    decreases |inputs| - pos
  {
    if pos < |inputs| && !IsAnswer(inputs[pos]) {
      QuitOnlyPrompts(inputs, pos + 1);
      var inner := Dialog(inputs, pos + 1).effects;
      assert QuitSpec(inputs, pos + 1).effects == [Write(Prompt)] + inner;
      assert QuitSpec(inputs, pos).effects == [Write(Prompt), Write(InvalidPrompt)] + inner;
    }
  }

  /** "maybe" then "n" declines after one reprompt; "Y" confirms at once. */
  lemma QuitExamples()
    ensures QuitSpec(["maybe", "n"], 0) == Answered(false, 2, [Write(Prompt), Write(InvalidPrompt)])
    ensures QuitSpec(["Y"], 0) == Answered(true, 1, [Write(Prompt)])
  {
    assert Lower("maybe") != "y" && Lower("maybe") != "n" by {
      assert Lower("maybe")[0] == 'm';
    }
    assert Lower("n") == "n";
    assert Lower("Y") == "y";
  }

  /** `QuitCommand` reading `inputs` from position `pos`. */
  method QuitCommand(inputs: seq<string>, pos: nat) returns (r: Reply)
    ensures r == QuitSpec(inputs, pos)
  {
    var effects := [Write(Prompt)];
    var invalidInput := false;
    var (decision, next) := ReadLine(inputs, pos);
    ghost var at := pos;
    // do { ... } while (invalidInput): the condition holds whenever it is tested, so the
    // loop only ends through one of its returns.
    while true
      invariant at >= pos
      invariant decision == (if at < |inputs| then Some(inputs[at]) else None)
      invariant next == (if at < |inputs| then at + 1 else at)
      invariant QuitSpec(inputs, pos) == WithPrefix(effects, Dialog(inputs, at))
      decreases |inputs| - at
    {
      if decision.None? {
        return Unanswered(effects);
      }
      var d := Lower(decision.value);
      if d == "y" || d == "n" {
        return Answered(d == "y", next, effects);
      }
      invalidInput := true;
      WithPrefixTwice(effects, [Write(InvalidPrompt)], Dialog(inputs, at + 1));
      effects := effects + [Write(InvalidPrompt)];
      var line := ReadLine(inputs, next);
      decision, next := line.0, line.1;
      at := at + 1;
    }
  }
}
