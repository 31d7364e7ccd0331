/** Deleting the elements at a list of ascending indices, the way the
    scripts do it: `del xs[i]` for each marked index, the largest first, so
    that the indices still to delete keep their meaning. */
module Lists {

  predicate Ascending(d: seq<nat>) { forall a, b :: 0 <= a < b < |d| ==> d[a] < d[b] }

  /** The elements of `xs` from index `j` on whose index is not in `d`. */
  function Kept<T>(xs: seq<T>, d: seq<nat>, j: nat): seq<T>
    requires j <= |xs|
    decreases |xs| - j
  {
    if j == |xs| then [] else (if j in d then [] else [xs[j]]) + Kept(xs, d, j + 1)
  }

  /** Keeping the elements whose index is not in an ascending `d`, from `j`
      on, where `d[m..]` are the indices at or after `j`. */
  lemma {:induction false} KeptLengthFrom<T>(xs: seq<T>, d: seq<nat>, j: nat, m: nat)
    requires j <= |xs| && m <= |d| && Ascending(d)
    requires forall a :: 0 <= a < |d| ==> d[a] < |xs|
    requires forall a :: 0 <= a < m ==> d[a] < j
    requires forall a :: m <= a < |d| ==> d[a] >= j
    ensures |Kept(xs, d, j)| == |xs| - j - (|d| - m)
    decreases |xs| - j
  {
    if j < |xs| {
      if j in d {
        assert d[m] == j;
        KeptLengthFrom(xs, d, j + 1, m + 1);
      } else {
        KeptLengthFrom(xs, d, j + 1, m);
      }
    }
  }

  lemma KeptLength<T>(xs: seq<T>, d: seq<nat>)
    requires Ascending(d) && forall a :: 0 <= a < |d| ==> d[a] < |xs|
    ensures |Kept(xs, d, 0)| == |xs| - |d|
  {
    KeptLengthFrom(xs, d, 0, 0);
  }

  /** An index not in `d` is kept. */
  lemma {:induction false} KeptSkips<T>(xs: seq<T>, d: seq<nat>, j: nat, k: nat)
    requires j <= k < |xs| && k !in d
    ensures xs[k] in Kept(xs, d, j)
    decreases k - j
  {
    if j < k {
      KeptSkips(xs, d, j + 1, k);
    }
  }

  /** Where the elements not yet touched by `DeleteAt` end, when the
      largest `|d| - k` indices have been deleted. */
  ghost function Untouched(d: seq<nat>, k: nat): nat
    requires k <= |d|
  {
    if k == 0 then 0 else d[k - 1] + 1
  }

  /** Kept elements over a stretch free of deleted indices are the stretch
      itself. */
  lemma {:induction false} KeptGap<T>(xs: seq<T>, d: seq<nat>, b: nat, x: nat)
    requires b <= x <= |xs|
    requires forall y :: b <= y < x ==> y !in d
    ensures Kept(xs, d, b) == xs[b..x] + Kept(xs, d, x)
    decreases x - b
  {
    if b < x {
      KeptGap(xs, d, b + 1, x);
      calc {
        Kept(xs, d, b);
        [xs[b]] + Kept(xs, d, b + 1);
        [xs[b]] + (xs[b + 1..x] + Kept(xs, d, x));
        { assert xs[b..x] == [xs[b]] + xs[b + 1..x]; }
        xs[b..x] + Kept(xs, d, x);
      }
    }
  }

  /** No index of an ascending `d` lies between the untouched prefix for
      `k` and the next deleted index (or anywhere past the prefix, once
      all of `d` is pending). */
  lemma UntouchedFree(d: seq<nat>, k: nat, hi: nat)
    requires Ascending(d) && k <= |d|
    requires k < |d| ==> hi <= d[k]
    ensures forall y :: Untouched(d, k) <= y < hi ==> y !in d
  {
    forall y | Untouched(d, k) <= y < hi
      ensures y !in d
    {
      if y in d {
        var a :| 0 <= a < |d| && d[a] == y;
      }
    }
  }

  /** A deleted index keeps nothing of its own. */
  lemma KeptDeleted<T>(xs: seq<T>, d: seq<nat>, x: nat)
    requires x < |xs| && x in d
    ensures Kept(xs, d, x) == Kept(xs, d, x + 1)
  {
    assert [] + Kept(xs, d, x + 1) == Kept(xs, d, x + 1);
  }

  lemma ConcatSplit<T>(a: seq<T>, u: nat, x: nat, rest: seq<T>, tail: seq<T>)
    requires u <= x <= |a| && tail == a[u..x] + rest
    ensures a[..x] + rest == a[..u] + tail
  {
    assert a[..x] == a[..u] + a[u..x];
  }

  lemma DropOne<T>(a: seq<T>, x: nat, rest: seq<T>, r: seq<T>)
    requires x < |a| && r == a[..x + 1] + rest
    ensures r[..x] + r[x + 1..] == a[..x] + rest
  {
    assert r[..x] == a[..x];
    assert r[x + 1..] == rest;
  }

  /** Deleting index `x` of `d`, after a stretch from `u` free of deleted
      indices: the untouched prefix shrinks to `u`. */
  lemma KeptBelow<T>(xs: seq<T>, d: seq<nat>, u: nat, x: nat)
    requires u <= x < |xs| && x in d
    requires forall y :: u <= y < x ==> y !in d
    ensures xs[..x] + Kept(xs, d, x + 1) == xs[..u] + Kept(xs, d, u)
  {
    KeptDeleted(xs, d, x);
    KeptGap(xs, d, u, x);
    ConcatSplit(xs, u, x, Kept(xs, d, x + 1), Kept(xs, d, u));
  }

  /** One turn of `DeleteAt`: deleting the largest pending index extends
      the touched suffix down to the next pending one. */
  lemma DeleteStep<T>(xs: seq<T>, d: seq<nat>, k: nat, r: seq<T>)
    requires Ascending(d) && forall a :: 0 <= a < |d| ==> d[a] < |xs|
    requires 0 < k <= |d|
    requires r == xs[..Untouched(d, k)] + Kept(xs, d, Untouched(d, k))
    ensures Untouched(d, k - 1) <= d[k - 1] < |xs|
    ensures r[..d[k - 1]] + r[d[k - 1] + 1..] == xs[..Untouched(d, k - 1)] + Kept(xs, d, Untouched(d, k - 1))
  {
    var x := d[k - 1];
    var u := Untouched(d, k - 1);
    assert u <= x by {
      if k > 1 { assert d[k - 2] < d[k - 1]; }
    }
    DropOne(xs, x, Kept(xs, d, x + 1), r);
    UntouchedFree(d, k - 1, x);
    KeptBelow(xs, d, u, x);
  }

  /** Before any deletion, every index past the largest deleted one is
      untouched. */
  lemma DeleteInit<T>(xs: seq<T>, d: seq<nat>)
    requires Ascending(d) && forall a :: 0 <= a < |d| ==> d[a] < |xs|
    ensures Untouched(d, |d|) <= |xs|
    ensures xs == xs[..Untouched(d, |d|)] + Kept(xs, d, Untouched(d, |d|))
  {
    var u := Untouched(d, |d|);
    assert u <= |xs| by {
      if d != [] { assert d[|d| - 1] < |xs|; }
    }
    UntouchedFree(d, |d|, |xs|);
    KeptTail(xs, d, u);
  }

  /** A suffix free of deleted indices is kept whole. */
  lemma KeptTail<T>(xs: seq<T>, d: seq<nat>, u: nat)
    requires u <= |xs| && forall y :: u <= y < |xs| ==> y !in d
    ensures xs == xs[..u] + Kept(xs, d, u)
  {
    KeptGap(xs, d, u, |xs|);
    assert Kept(xs, d, |xs|) == [];
    ConcatSplit(xs, u, |xs|, [], Kept(xs, d, u));
    assert xs[..|xs|] + [] == xs;
  }

  /** `del xs[i]` for the marked indices, the largest first. */
  method DeleteAt<T>(xs: seq<T>, del: seq<nat>) returns (r: seq<T>)
    requires Ascending(del) && forall a :: 0 <= a < |del| ==> del[a] < |xs|
    ensures r == Kept(xs, del, 0)
  {
    r := xs;
    var k: nat := |del|;
    DeleteInit(xs, del);
    while k > 0
      invariant k <= |del| && Untouched(del, k) <= |xs|
      invariant r == xs[..Untouched(del, k)] + Kept(xs, del, Untouched(del, k))
    {
      var x := del[k - 1];
      DeleteStep(xs, del, k, r);
      r := r[..x] + r[x + 1..];
      k := k - 1;
    }
    assert xs[..0] + Kept(xs, del, 0) == Kept(xs, del, 0);
  }
}
