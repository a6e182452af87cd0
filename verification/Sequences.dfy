/** Order-preserving filter and map, and what they mean in terms of positions. */
module Sequences {

  function Filter<T>(p: T -> bool, xs: seq<T>): (ys: seq<T>)
    ensures |ys| <= |xs|
  {
    if xs == [] then []
    else (if p(xs[0]) then [xs[0]] else []) + Filter(p, xs[1..])
  }

  function Map<T, U>(f: T -> U, xs: seq<T>): (ys: seq<U>)
    ensures |ys| == |xs|
    ensures forall i :: 0 <= i < |xs| ==> ys[i] == f(xs[i])
  {
    seq(|xs|, i requires 0 <= i < |xs| => f(xs[i]))
  }

  lemma {:induction false} FilterAppend<T>(p: T -> bool, xs: seq<T>, ys: seq<T>)
    ensures Filter(p, xs + ys) == Filter(p, xs) + Filter(p, ys)
  {
    if xs == [] {
      assert xs + ys == ys;
    } else {
      var first := if p(xs[0]) then [xs[0]] else [];
      calc {
        Filter(p, xs + ys);
        { assert (xs + ys)[0] == xs[0] && (xs + ys)[1..] == xs[1..] + ys; }
        first + Filter(p, xs[1..] + ys);
        { FilterAppend(p, xs[1..], ys); }
        first + (Filter(p, xs[1..]) + Filter(p, ys));
        (first + Filter(p, xs[1..])) + Filter(p, ys);
      }
    }
  }

  lemma MapAppend<T, U>(f: T -> U, xs: seq<T>, ys: seq<T>)
    ensures Map(f, xs + ys) == Map(f, xs) + Map(f, ys)
  {
  }

  lemma {:induction false} FilterNone<T>(p: T -> bool, xs: seq<T>)
    requires forall x :: x in xs ==> !p(x)
    ensures Filter(p, xs) == []
  {
    if xs == [] {
    } else {
      FilterNone(p, xs[1..]);
    }
  }

  /** ys describes, one by one and in order, the elements of xs at the positions in at, and those are
      exactly the elements wanted. */
  ghost predicate Selects<T, U>(xs: seq<T>, ys: seq<U>, wanted: T -> bool, describes: (U, T) -> bool, at: seq<int>) {
    && |at| == |ys|
    && (forall i, j :: 0 <= i < j < |at| ==> at[i] < at[j])
    && (forall i :: 0 <= i < |at| ==> 0 <= at[i] < |xs| && wanted(xs[at[i]]) && describes(ys[i], xs[at[i]]))
    && (forall k :: 0 <= k < |xs| && wanted(xs[k]) ==> k in at)
  }

  /** A filter followed by a map selects the elements the filter keeps. */
  lemma {:induction false} FilterSelects<T, U>(p: T -> bool, f: T -> U, describes: (U, T) -> bool, xs: seq<T>)
    returns (at: seq<int>)
    requires forall x :: p(x) ==> describes(f(x), x)
    ensures Selects(xs, Map(f, Filter(p, xs)), p, describes, at)
  {
    if xs == [] {
      at := [];
    } else {
      var n := |xs| - 1;
      var init := xs[..n];
      assert xs == init + [xs[n]];
      FilterAppend(p, init, [xs[n]]);
      at := FilterSelects(p, f, describes, init);
      assert forall k :: 0 <= k < n ==> xs[k] == init[k];
      if p(xs[n]) {
        at := at + [n];
        assert at[|at| - 1] == n;
      }
    }
  }
}
