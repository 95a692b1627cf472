/** Failure-carrying results (the source's `Option`, `Result` and panics) and its vector operations. */
module Wrappers {

  datatype Option<+T> = None | Some(value: T)

  datatype Result<+T, +E> = Ok(value: T) | Err(error: E) {

    predicate IsFailure() {
      Err?
    }

    function PropagateFailure<U>(): Result<U, E>
      requires Err?
    {
      Err(error)
    }

    function Extract(): T
      requires Ok?
    {
      value
    }
  }

  /** `iter().map(f).collect::<Result<Vec<_>, _>>()`: all values, or the first error. */
  function Collect<T, U, E>(f: T -> Result<U, E>, xs: seq<T>): (r: Result<seq<U>, E>)
    ensures r.Ok? ==> |r.value| == |xs| && forall i | 0 <= i < |xs| :: f(xs[i]) == Ok(r.value[i])
  {
    if xs == [] then Ok([])
    else
      var head :- f(xs[0]);
      var tail :- Collect(f, xs[1..]);
      Ok([head] + tail)
  }

  /** `iter().map(f).collect::<Vec<_>>()`. */
  function Map<T, U>(f: T -> U, xs: seq<T>): (r: seq<U>)
    ensures |r| == |xs| && forall i | 0 <= i < |xs| :: r[i] == f(xs[i])
  {
    seq(|xs|, i requires 0 <= i < |xs| => f(xs[i]))
  }

  /** Collecting succeeds with `ys` exactly when every element does. */
  lemma {:induction false} CollectOk<T, U, E>(f: T -> Result<U, E>, xs: seq<T>, ys: seq<U>)
    requires |xs| == |ys|
    requires forall i | 0 <= i < |xs| :: f(xs[i]) == Ok(ys[i])
    ensures Collect(f, xs) == Ok(ys)
  {
    if xs != [] {
      CollectOk(f, xs[1..], ys[1..]);
      assert [ys[0]] + ys[1..] == ys;
    }
  }

  /** Collecting succeeds exactly when every element does. */
  lemma {:induction false} CollectSucceeds<T, U, E>(f: T -> Result<U, E>, xs: seq<T>)
    ensures Collect(f, xs).Ok? <==> forall i | 0 <= i < |xs| :: f(xs[i]).Ok?
  {
    if xs != [] {
      CollectSucceeds(f, xs[1..]);
      assert forall i | 1 <= i < |xs| :: xs[i] == xs[1..][i - 1];
    }
  }

  /** Equal concatenations with equally long first parts split alike. */
  lemma {:induction false} SplitAlike<T>(a: seq<T>, b: seq<T>, s: seq<T>, t: seq<T>)
    requires |a| == |b| && a + s == b + t
    ensures a == b && s == t
  {
    assert a == (a + s)[..|a|] && b == (b + t)[..|b|];
    assert s == (a + s)[|a|..] && t == (b + t)[|b|..];
  }

  function Reversed<T>(s: seq<T>): (r: seq<T>)
    ensures |r| == |s| && forall i | 0 <= i < |s| :: r[i] == s[|s| - 1 - i]
  {
    if s == [] then [] else Reversed(s[1..]) + [s[0]]
  }

  /** `reverse()`. */
  method ReverseInPlace<T>(a: array<T>)
    modifies a
    ensures a[..] == Reversed(old(a[..]))
  {
    var n, i := a.Length, 0;
    while i < n / 2
      invariant 0 <= i <= n / 2
      invariant forall k | 0 <= k < i || n - i <= k < n :: a[k] == old(a[n - 1 - k])
      invariant forall k | i <= k < n - i :: a[k] == old(a[k])
    {
      a[i], a[n - 1 - i] := a[n - 1 - i], a[i];
      i := i + 1;
    }
  }
}
