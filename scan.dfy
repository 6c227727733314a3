/**
 * Searches over a range of positions or a sequence, stated once for an
 * arbitrary test: the last or the first position where it holds, and the
 * first element of a sequence for which a partial result is present.
 * Regular-expression search and backtracking order are built from these.
 */
module Scan {
  import opened Wrappers

  /** The last `k` in `[lo, hi]` with `p(k)`, trying `hi` first. */
  function LastIn(lo: nat, hi: nat, p: nat -> bool): (r: Option<nat>)
    requires lo <= hi
    ensures r.Some? ==> lo <= r.value <= hi && p(r.value)
    ensures r.Some? ==> forall k :: r.value < k <= hi ==> !p(k)
    ensures r.None? ==> forall k :: lo <= k <= hi ==> !p(k)
    decreases hi
  {
    if p(hi) then Some(hi)
    else if hi == lo then None
    else LastIn(lo, hi - 1, p)
  }

  /** The first `k` in `[lo, hi)` with `p(k)`, trying `lo` first. */
  function FirstIn(lo: nat, hi: nat, p: nat -> bool): (r: Option<nat>)
    ensures r.Some? ==> lo <= r.value < hi && p(r.value)
    ensures r.Some? ==> forall k :: lo <= k < r.value ==> !p(k)
    ensures r.None? ==> forall k :: lo <= k < hi ==> !p(k)
    decreases hi - lo
  {
    if lo >= hi then None
    else if p(lo) then Some(lo)
    else FirstIn(lo + 1, hi, p)
  }

  /** The result of `f` on the first element of `xs` where it is present. */
  function FirstSome<T, R>(xs: seq<T>, f: T -> Option<R>): (r: Option<R>)
    ensures r.Some? ==> exists n :: 0 <= n < |xs| && f(xs[n]) == r
  {
    if xs == [] then None
    else if f(xs[0]).Some? then f(xs[0])
    else
      var r := FirstSome(xs[1..], f);
      assert r.Some? ==> exists n :: 0 <= n < |xs| && f(xs[n]) == r by {
        if r.Some? {
          var n :| 0 <= n < |xs[1..]| && f(xs[1..][n]) == r;
          assert xs[n + 1] == xs[1..][n];
        }
      }
      r
  }

  /**
   * `FirstSome` takes the first element that gives a result: it finds
   * nothing exactly when no element gives one.
   */
  lemma {:induction false} FirstSomeIsFirst<T, R>(xs: seq<T>, f: T -> Option<R>)
    ensures FirstSome(xs, f).None? <==> forall n :: 0 <= n < |xs| ==> f(xs[n]).None?
    ensures FirstSome(xs, f).Some? ==>
      exists n :: 0 <= n < |xs| && f(xs[n]) == FirstSome(xs, f)
                  && forall k :: 0 <= k < n ==> f(xs[k]).None?
  {
    if xs != [] {
      var rest := xs[1..];
      FirstSomeIsFirst(rest, f);
      assert forall n :: 0 < n < |xs| ==> xs[n] == rest[n - 1];
      if f(xs[0]).None? && FirstSome(rest, f).Some? {
        var n :| 0 <= n < |rest| && f(rest[n]) == FirstSome(rest, f)
                 && forall k :: 0 <= k < n ==> f(rest[k]).None?;
        assert xs[n + 1] == rest[n];
        forall k | 0 <= k < n + 1
          ensures f(xs[k]).None?
        {
          if k > 0 {
            assert xs[k] == rest[k - 1];
          }
        }
      }
    }
  }

  /** One step of `FirstSome` along a suffix, as a loop takes it. */
  lemma FirstSomeStep<T, R>(xs: seq<T>, i: nat, f: T -> Option<R>)
    requires i < |xs|
    ensures FirstSome(xs[i..], f) == if f(xs[i]).Some? then f(xs[i]) else FirstSome(xs[i + 1..], f)
  {
    assert xs[i..][1..] == xs[i + 1..];
  }

  /** The result of `f` on the last element of `xs` where it is not empty; empty when there is none. */
  function LastNonEmpty<T, U>(xs: seq<T>, f: T -> seq<U>): seq<U> {
    if xs == [] then []
    else if f(xs[|xs| - 1]) != [] then f(xs[|xs| - 1])
    else LastNonEmpty(xs[..|xs| - 1], f)
  }

  /**
   * `LastNonEmpty` takes the last element that gives a result: it is empty
   * exactly when no element gives one.
   */
  lemma {:induction false} LastNonEmptyIsLast<T, U>(xs: seq<T>, f: T -> seq<U>)
    ensures LastNonEmpty(xs, f) == [] <==> forall n :: 0 <= n < |xs| ==> f(xs[n]) == []
    ensures LastNonEmpty(xs, f) != [] ==>
      exists n :: 0 <= n < |xs| && LastNonEmpty(xs, f) == f(xs[n])
                  && forall m :: n < m < |xs| ==> f(xs[m]) == []
  {
    if xs != [] {
      var init := xs[..|xs| - 1];
      LastNonEmptyIsLast(init, f);
      assert forall n :: 0 <= n < |init| ==> xs[n] == init[n];
      if f(xs[|xs| - 1]) == [] && LastNonEmpty(init, f) != [] {
        var n :| 0 <= n < |init| && LastNonEmpty(init, f) == f(init[n])
                 && forall m :: n < m < |init| ==> f(init[m]) == [];
        assert LastNonEmpty(xs, f) == f(xs[n]);
      }
    }
  }

  /** The result `o` holds, as a sequence of at most one element. */
  function AsSeq<U>(o: Option<U>): (r: seq<U>)
    ensures |r| <= 1
  {
    match o
    case Some(u) => [u]
    case None => []
  }

  /** What `f` yields on each element of `xs`, in order, skipping the elements it yields nothing for. */
  function Collect<T, U>(xs: seq<T>, f: T -> Option<U>): (r: seq<U>)
    ensures |r| <= |xs|
  {
    if xs == [] then [] else Collect(xs[..|xs| - 1], f) + AsSeq(f(xs[|xs| - 1]))
  }

  lemma CollectNext<T, U>(xs: seq<T>, i: nat, f: T -> Option<U>)
    requires i < |xs|
    ensures Collect(xs[..i + 1], f) == Collect(xs[..i], f) + AsSeq(f(xs[i]))
  {
    assert xs[..i + 1][..i] == xs[..i];
  }

  /** Collecting over consecutive stretches gives the results of each, one after the other. */
  lemma {:induction false} CollectAppend<T, U>(a: seq<T>, b: seq<T>, f: T -> Option<U>)
    ensures Collect(a + b, f) == Collect(a, f) + Collect(b, f)
    decreases |b|
  {
    if b == [] {
      assert a + b == a;
    } else {
      var b' := b[..|b| - 1];
      var last := AsSeq(f(b[|b| - 1]));
      assert (a + b)[..|a + b| - 1] == a + b';
      assert (a + b)[|a + b| - 1] == b[|b| - 1];
      CollectAppend(a, b', f);
      assert (Collect(a, f) + Collect(b', f)) + last == Collect(a, f) + (Collect(b', f) + last);
    }
  }

  /** A result is collected exactly when some element yields it. */
  lemma {:induction false} CollectMembers<T, U>(xs: seq<T>, f: T -> Option<U>, u: U)
    ensures u in Collect(xs, f) <==> exists j :: 0 <= j < |xs| && f(xs[j]) == Some(u)
  {
    if xs != [] {
      var init := xs[..|xs| - 1];
      CollectMembers(init, f, u);
      if u in Collect(xs, f) && u !in Collect(init, f) {
        assert f(xs[|xs| - 1]) == Some(u);
      }
      if exists j :: 0 <= j < |xs| && f(xs[j]) == Some(u) {
        var j :| 0 <= j < |xs| && f(xs[j]) == Some(u);
        if j < |xs| - 1 {
          assert init[j] == xs[j];
        }
      }
    }
  }
}
