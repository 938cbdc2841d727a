/**
 * How `Main` reads one entry: split on the single character ' ', the first token
 * lower-cased selects the handler, the remaining tokens are its arguments.
 */
module Entry {
  import opened Wrappers
  import opened Text

  /** The cases of the `switch (command.ToLower())` in `Main`. */
  datatype Command = Man | List | Kill | Start | Quit | Unknown

  /** The keyword that selects a known command. */
  function Keyword(c: Command): string
    requires c != Unknown
  {
    match c
    case Man => "man"
    case List => "list"
    case Kill => "kill"
    case Start => "start"
    case Quit => "quit"
  }

  /** The handler a command token selects: a known command exactly when the lower-cased
      token is one of the five keywords, and then the one whose keyword it is. */
  function CommandOf(token: string): (c: Command)
    ensures c == Unknown <==> Lower(token) !in {"man", "list", "kill", "start", "quit"}
    ensures c != Unknown ==> Keyword(c) == Lower(token)
  {
    var t := Lower(token);
    if t == "man" then Man
    else if t == "list" then List
    else if t == "kill" then Kill
    else if t == "start" then Start
    else if t == "quit" then Quit
    else Unknown
  }

  /** Dispatch ignores case: a token selects a known command exactly when it is that
      command's keyword in some mixture of upper and lower case. */
  lemma CommandOfCasing(token: string, c: Command)
    requires c != Unknown
    ensures CommandOf(token) == c <==> SameUpToCase(token, Keyword(c))
  {
    var k := Keyword(c);
    assert Lower(k) == k;
    LowerCaseInsensitive(token, k);
  }

  /** Tokens that differ only in case select the same handler. */
  lemma CommandOfSameUpToCase(s: string, t: string)
    requires SameUpToCase(s, t)
    ensures CommandOf(s) == CommandOf(t)
  {
    LowerCaseInsensitive(s, t);
  }

  /** A non-empty entry: the command token and the argument tokens. */
  datatype Entry = Entry(name: string, arguments: seq<string>)

  /** `Split(' ')`, `splitEntry[0]` and `splitEntry.Skip(1).ToArray()` on one input line;
      `None` for the empty line, which `Main` does not dispatch. The tokens joined by
      single spaces give back the line, no token holds a space, and there are as many
      arguments as spaces. */
  function Parse(line: string): (r: Option<Entry>)
    ensures r.None? <==> line == ""
    ensures r.Some? ==> Join([r.value.name] + r.value.arguments, ' ') == line
    ensures r.Some? ==> |r.value.arguments| == Occurrences(line, ' ')
    ensures r.Some? ==> ' ' !in r.value.name
    ensures r.Some? ==> forall k :: 0 <= k < |r.value.arguments| ==> ' ' !in r.value.arguments[k]
  {
    if line == "" then None
    else
      var tokens := Split(line, ' ');
      assert [tokens[0]] + tokens[1..] == tokens;
      Some(Entry(tokens[0], tokens[1..]))
  }

  /** Conversely, a command token and arguments without spaces, joined by single spaces,
      parse back to themselves (an empty argument comes from two adjacent spaces). */
  lemma ParseJoin(name: string, arguments: seq<string>)
    requires ' ' !in name && forall k :: 0 <= k < |arguments| ==> ' ' !in arguments[k]
    requires Join([name] + arguments, ' ') != ""
    ensures Parse(Join([name] + arguments, ' ')) == Some(Entry(name, arguments))
  {
    var tokens := [name] + arguments;
    forall k | 0 <= k < |tokens|
      ensures ' ' !in tokens[k]
    {
      if k > 0 {
        assert tokens[k] == arguments[k - 1];
      }
    }
    SplitJoin(tokens, ' ');
    assert tokens[1..] == arguments;
  }
}
