/**
 * The two shapes of `foreach` over a snapshot that the commands use: keep the elements
 * that pass a test, and replace each element by a fixed number of outputs.
 */
module Seqs {

  /** The elements of `s` that pass `keep`, in order. */
  function Filter<T>(keep: T -> bool, s: seq<T>): seq<T> {
    if s == [] then [] else (if keep(s[0]) then [s[0]] else []) + Filter(keep, s[1..])
  }

  /** The outputs of every element of `s`, in order. */
  function FlatMap<T, U>(f: T -> seq<U>, s: seq<T>): seq<U> {
    if s == [] then [] else f(s[0]) + FlatMap(f, s[1..])
  }

  lemma {:induction false} FilterAppend<T>(keep: T -> bool, a: seq<T>, b: seq<T>)
    ensures Filter(keep, a + b) == Filter(keep, a) + Filter(keep, b)
    decreases |a|
  {
    if a == [] {
      assert a + b == b;
    } else {
      var head := if keep(a[0]) then [a[0]] else [];
      assert (a + b)[0] == a[0];
      assert (a + b)[1..] == a[1..] + b;
      FilterAppend(keep, a[1..], b);
      assert head + (Filter(keep, a[1..]) + Filter(keep, b)) == (head + Filter(keep, a[1..])) + Filter(keep, b);
    }
  }

  /** Filtering keeps each passing element as often as it occurs, and nothing else. */
  lemma {:induction false} FilterCounts<T>(keep: T -> bool, s: seq<T>)
    ensures forall x :: multiset(Filter(keep, s))[x] == if keep(x) then multiset(s)[x] else 0
    ensures forall x :: x in Filter(keep, s) <==> x in s && keep(x)
    decreases |s|
  {
    if s != [] {
      FilterCounts(keep, s[1..]);
      assert s == [s[0]] + s[1..];
    }
  }

  lemma {:induction false} FilterNone<T>(keep: T -> bool, s: seq<T>)
    requires forall k :: 0 <= k < |s| ==> !keep(s[k])
    ensures Filter(keep, s) == []
    decreases |s|
  {
    if s != [] {
      FilterNone(keep, s[1..]);
    }
  }

  /** A test that exactly one position passes keeps exactly that element. */
  lemma {:induction false} FilterOnly<T>(keep: T -> bool, s: seq<T>, j: nat)
    requires j < |s| && keep(s[j])
    requires forall i :: 0 <= i < |s| && i != j ==> !keep(s[i])
    ensures Filter(keep, s) == [s[j]]
    decreases |s|
  {
    var tail := s[1..];
    if j == 0 {
      forall k | 0 <= k < |tail|
        ensures !keep(tail[k])
      {
        assert tail[k] == s[k + 1];
      }
      FilterNone(keep, tail);
    } else {
      forall k | 0 <= k < |tail| && k != j - 1
        ensures !keep(tail[k])
      {
        assert tail[k] == s[k + 1];
      }
      FilterOnly(keep, tail, j - 1);
    }
  }

  lemma {:induction false} FlatMapAppend<T, U>(f: T -> seq<U>, a: seq<T>, b: seq<T>)
    ensures FlatMap(f, a + b) == FlatMap(f, a) + FlatMap(f, b)
    decreases |a|
  {
    if a == [] {
      assert a + b == b;
    } else {
      assert (a + b)[0] == a[0];
      assert (a + b)[1..] == a[1..] + b;
      FlatMapAppend(f, a[1..], b);
      assert f(a[0]) + (FlatMap(f, a[1..]) + FlatMap(f, b)) == (f(a[0]) + FlatMap(f, a[1..])) + FlatMap(f, b);
    }
  }

  /** One more element adds its outputs at the end. */
  lemma FlatMapStep<T, U>(f: T -> seq<U>, s: seq<T>, i: nat)
    requires i < |s|
    ensures FlatMap(f, s[..i + 1]) == FlatMap(f, s[..i]) + f(s[i])
  {
    assert s[..i + 1] == s[..i] + [s[i]];
    FlatMapAppend(f, s[..i], [s[i]]);
    assert FlatMap(f, [s[i]]) == f(s[i]) + FlatMap(f, []);
  }

  /** With two outputs per element, the outputs of the `k`-th element sit at positions
      `2 * k` and `2 * k + 1`. */
  lemma {:induction false} FlatMapPairsAt<T, U>(f: T -> seq<U>, s: seq<T>)
    requires forall x :: |f(x)| == 2
    ensures |FlatMap(f, s)| == 2 * |s|
    ensures forall k :: 0 <= k < |s| ==> FlatMap(f, s)[2 * k] == f(s[k])[0] && FlatMap(f, s)[2 * k + 1] == f(s[k])[1]
    decreases |s|
  {
    if s != [] {
      FlatMapPairsAt(f, s[1..]);
      var r := FlatMap(f, s);
      var rest := FlatMap(f, s[1..]);
      assert r == f(s[0]) + rest;
      forall k | 1 <= k < |s|
        ensures r[2 * k] == f(s[k])[0] && r[2 * k + 1] == f(s[k])[1]
      {
        assert r[2 * k] == rest[2 * (k - 1)];
        assert r[2 * k + 1] == rest[2 * (k - 1) + 1];
        assert s[1..][k - 1] == s[k];
      }
    }
  }

  /** With one output per element, the output of the `k`-th element sits at position `k`. */
  lemma {:induction false} FlatMapSinglesAt<T, U>(f: T -> seq<U>, s: seq<T>)
    requires forall x :: |f(x)| == 1
    ensures |FlatMap(f, s)| == |s|
    ensures forall k :: 0 <= k < |s| ==> FlatMap(f, s)[k] == f(s[k])[0]
    decreases |s|
  {
    if s != [] {
      FlatMapSinglesAt(f, s[1..]);
      var r := FlatMap(f, s);
      var rest := FlatMap(f, s[1..]);
      assert r == f(s[0]) + rest;
      forall k | 1 <= k < |s|
        ensures r[k] == f(s[k])[0]
      {
        assert r[k] == rest[k - 1];
        assert s[1..][k - 1] == s[k];
      }
    }
  }

  /** Every output comes from some element. */
  lemma {:induction false} FlatMapFrom<T, U>(f: T -> seq<U>, s: seq<T>, y: U)
    requires y in FlatMap(f, s)
    ensures exists k :: 0 <= k < |s| && y in f(s[k])
    decreases |s|
  {
    if y !in f(s[0]) {
      FlatMapFrom(f, s[1..], y);
      var k :| 0 <= k < |s[1..]| && y in f(s[1..][k]);
      assert s[1..][k] == s[k + 1];
    }
  }
}
