/**
 * The string operations of the .NET runtime that the process manager relies on:
 * `String.ToLower`, `String.Split(' ')` and the decimal rendering of integers
 * (a pid's `ToString()`, also used implicitly by string concatenation).
 */
module Text {
  import opened Wrappers

  // ---------------------------------------------------------------------------
  // Lower-casing

  /** `Char.ToLower` restricted to ASCII: 'A'..'Z' become 'a'..'z', everything else is kept. */
  function LowerChar(c: char): char {
    if 'A' <= c <= 'Z' then (c as int - 'A' as int + 'a' as int) as char else c
  }

  /** `String.ToLower`, character by character: the result has no upper-case ASCII
      letter and differs from `s` at most in case. */
  function Lower(s: string): (r: string)
    ensures |r| == |s|
    ensures forall i :: 0 <= i < |r| ==> !('A' <= r[i] <= 'Z')
    ensures forall i :: 0 <= i < |r| ==> SameLetter(r[i], s[i])
  {
    seq(|s|, i requires 0 <= i < |s| => LowerChar(s[i]))
  }

  /** `Char.ToUpper` restricted to ASCII, used only to state case-insensitivity. */
  function UpperChar(c: char): char {
    if 'a' <= c <= 'z' then (c as int - 'a' as int + 'A' as int) as char else c
  }

  /** Two strings that differ at most in the case of their ASCII letters: at every
      position the characters are equal or one is the upper-case form of the other. */
  predicate SameUpToCase(s: string, t: string) {
    |s| == |t| && forall i :: 0 <= i < |s| ==> SameLetter(s[i], t[i])
  }

  predicate SameLetter(a: char, b: char) {
    a == b || a == UpperChar(b) || b == UpperChar(a)
  }

  /** Strings that differ only in case lower-case to the same string, and conversely. */
  lemma LowerCaseInsensitive(s: string, t: string)
    ensures SameUpToCase(s, t) <==> Lower(s) == Lower(t)
  {
    if |s| == |t| {
      forall i | 0 <= i < |s|
        ensures SameLetter(s[i], t[i]) <==> Lower(s)[i] == Lower(t)[i]
      {
        LowerSameLetter(s[i], t[i]);
      }
      if Lower(s) != Lower(t) {
        var i :| 0 <= i < |s| && Lower(s)[i] != Lower(t)[i];
        assert !SameLetter(s[i], t[i]);
      }
    }
  }

  /** Two characters lower-case alike exactly when they are the same letter. */
  lemma LowerSameLetter(a: char, b: char)
    ensures SameLetter(a, b) <==> LowerChar(a) == LowerChar(b)
  {
    if a == UpperChar(b) {
      LowerOfUpperChar(b);
    } else if b == UpperChar(a) {
      LowerOfUpperChar(a);
    }
  }

  /** Upper-casing any character and lower-casing it again gives its lower-case form. */
  lemma LowerOfUpperChar(c: char)
    ensures LowerChar(UpperChar(c)) == LowerChar(c)
  {
  }

  // ---------------------------------------------------------------------------
  // Splitting on one separator character

  /** Number of occurrences of `c` in `s`. */
  function Occurrences(s: string, c: char): nat {
    if s == [] then 0 else (if s[0] == c then 1 else 0) + Occurrences(s[1..], c)
  }

  /** The tokens put back together with one separator between neighbours. */
  function Join(tokens: seq<string>, sep: char): string
    requires |tokens| >= 1
    decreases |tokens|
  {
    if |tokens| == 1 then tokens[0] else tokens[0] + [sep] + Join(tokens[1..], sep)
  }

  /**
   * `String.Split(sep)` with a single separator character: every separator ends a
   * token, so neighbouring separators produce an empty token and the result is never
   * empty. Splitting is undone by `Join`, and there is one token more than separators.
   */
  function Split(s: string, sep: char): (tokens: seq<string>)
    ensures |tokens| == Occurrences(s, sep) + 1
    ensures forall k :: 0 <= k < |tokens| ==> sep !in tokens[k]
    ensures Join(tokens, sep) == s
    decreases |s|
  {
    if s == [] then [""]
    else
      var rest := Split(s[1..], sep);
      if s[0] == sep then
        assert ([""] + rest)[1..] == rest;
        [""] + rest
      else
        var tokens := [[s[0]] + rest[0]] + rest[1..];
        assert tokens[1..] == rest[1..];
        assert sep !in [s[0]] + rest[0];
        assert s == [s[0]] + s[1..];
        tokens
  }

  /** A string without the separator is a single token. */
  lemma {:induction false} SplitWithoutSeparator(t: string, sep: char)
    requires sep !in t
    ensures Split(t, sep) == [t]
    decreases |t|
  {
    if t != [] {
      SplitWithoutSeparator(t[1..], sep);
      assert [t[0]] + t[1..] == t;
    }
  }

  /** A separator between two strings separates their token lists. */
  lemma {:induction false} SplitAround(a: string, b: string, sep: char)
    ensures Split(a + [sep] + b, sep) == Split(a, sep) + Split(b, sep)
    decreases |a|
  {
    var s := a + [sep] + b;
    if a == [] {
      assert s[1..] == b;
    } else {
      assert s[1..] == a[1..] + [sep] + b;
      SplitAround(a[1..], b, sep);
    }
  }

  /** A field without the separator, then the separator: the field is the first token. */
  lemma SplitField(field: string, rest: string, sep: char)
    requires sep !in field
    ensures Split(field + [sep] + rest, sep) == [field] + Split(rest, sep)
  {
    SplitWithoutSeparator(field, sep);
    SplitAround(field, rest, sep);
  }

  /** Joining tokens that hold no separator and splitting again gives the tokens back. */
  lemma {:induction false} SplitJoin(tokens: seq<string>, sep: char)
    requires |tokens| >= 1
    requires forall k :: 0 <= k < |tokens| ==> sep !in tokens[k]
    ensures Split(Join(tokens, sep), sep) == tokens
    decreases |tokens|
  {
    SplitWithoutSeparator(tokens[0], sep);
    if |tokens| > 1 {
      SplitJoin(tokens[1..], sep);
      SplitAround(tokens[0], Join(tokens[1..], sep), sep);
      assert [tokens[0]] + tokens[1..] == tokens;
    }
  }

  // ---------------------------------------------------------------------------
  // Decimal rendering of integers

  function DigitChar(d: nat): char
    requires d < 10
  {
    ('0' as int + d) as char
  }

  predicate IsDigit(c: char) {
    '0' <= c <= '9'
  }

  function DigitValue(c: char): nat
    requires IsDigit(c)
  {
    c as int - '0' as int
  }

  /** The digits of `n`, most significant first, without leading zeros. */
  function NatDigits(n: nat): (r: string)
    ensures |r| >= 1
    ensures forall k :: 0 <= k < |r| ==> IsDigit(r[k])
    ensures r[0] == '0' <==> n == 0
    decreases n
  {
    if n < 10 then [DigitChar(n)] else NatDigits(n / 10) + [DigitChar(n % 10)]
  }

  /** A pid's `ToString()` in the invariant culture: an optional '-' and the digits. */
  function DecimalString(i: int): (r: string)
    ensures |r| >= 1 && (r[0] == '-' <==> i < 0)
    ensures var first := if i < 0 then 1 else 0;
      first < |r| && (forall k :: first <= k < |r| ==> IsDigit(r[k])) && (r[first] == '0' <==> i == 0)
  {
    if i < 0 then "-" + NatDigits(-i) else NatDigits(i)
  }

  /** Reads a non-empty run of digits, most significant first. */
  function ParseNat(s: string): nat
    requires |s| >= 1 && forall k :: 0 <= k < |s| ==> IsDigit(s[k])
    decreases |s|
  {
    if |s| == 1 then DigitValue(s[0])
    else 10 * ParseNat(s[..|s| - 1]) + DigitValue(s[|s| - 1])
  }

  predicate AllDigits(s: string) {
    |s| >= 1 && forall k :: 0 <= k < |s| ==> IsDigit(s[k])
  }

  /** Reads an optionally negative decimal numeral; `None` for anything else. */
  function ParseDecimal(s: string): Option<int> {
    if |s| >= 2 && s[0] == '-' && AllDigits(s[1..]) then Some(-(ParseNat(s[1..]) as int))
    else if AllDigits(s) then Some(ParseNat(s))
    else None
  }

  lemma {:induction false} ParseNatDigits(n: nat)
    ensures ParseNat(NatDigits(n)) == n
    decreases n
  {
    if n >= 10 {
      var s := NatDigits(n);
      assert s[..|s| - 1] == NatDigits(n / 10);
      ParseNatDigits(n / 10);
    }
  }

  /** Reading back the decimal string of an integer gives the integer. */
  lemma DecimalRoundTrip(i: int)
    ensures ParseDecimal(DecimalString(i)) == Some(i)
  {
    if i < 0 {
      var s := DecimalString(i);
      assert s[1..] == NatDigits(-i);
      ParseNatDigits(-i);
    } else {
      ParseNatDigits(i);
    }
  }

  /** Distinct integers have distinct decimal strings. */
  lemma DecimalInjective(a: int, b: int)
    ensures DecimalString(a) == DecimalString(b) <==> a == b
  {
    DecimalRoundTrip(a);
    DecimalRoundTrip(b);
  }

  function Pow10(k: nat): (r: nat)
    ensures r >= 1
  {
    if k == 0 then 1 else 10 * Pow10(k - 1)
  }

  /** The digits of `n` are more than `k` (k >= 1) exactly when `n` reaches 10^k. */
  lemma {:induction false} NatDigitsLonger(n: nat, k: nat)
    requires k >= 1
    ensures |NatDigits(n)| > k <==> n >= Pow10(k)
    decreases n
  {
    assert Pow10(k) == 10 * Pow10(k - 1);
    if n >= 10 {
      if k > 1 {
        NatDigitsLonger(n / 10, k - 1);
        assert n / 10 >= Pow10(k - 1) <==> n >= 10 * Pow10(k - 1);
      }
    }
  }

  /** The decimal string of `i` is longer than seven characters exactly when
      `i` has eight digits or more, or is negative with seven digits or more. */
  lemma DecimalLongerThanSeven(i: int)
    ensures |DecimalString(i)| > 7 <==> i >= 10000000 || i <= -1000000
  {
    assert Pow10(6) == 1000000;
    assert Pow10(7) == 10000000;
    if i < 0 {
      NatDigitsLonger(-i, 6);
    } else {
      NatDigitsLonger(i, 7);
    }
  }
}
