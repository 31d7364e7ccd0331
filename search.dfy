/** Searches over the positions of a string, stated over a predicate or a
    matcher on positions: the building blocks of the regular expressions
    the scripts use (`.*` settling right-most, `.*?` left-most, and
    `findall` resuming where a match ends). */
module Search {
  import opened Wrappers

  /** The rightmost position in `lo..hi` that satisfies `ok`. */
  function LastAt(lo: nat, hi: nat, ok: nat -> bool): (r: Option<nat>)
    ensures r.Some? ==> lo <= r.value <= hi && ok(r.value)
    ensures r.Some? ==> forall q :: r.value < q <= hi ==> !ok(q)
    ensures r.None? ==> forall q :: lo <= q <= hi ==> !ok(q)
    decreases hi
  {
    if hi < lo then None
    else if ok(hi) then Some(hi)
    else if hi == lo then None
    else LastAt(lo, hi - 1, ok)
  }

  /** The first position in `lo..hi` that satisfies `ok`. */
  function FirstAt(lo: nat, hi: nat, ok: nat -> bool): (r: Option<nat>)
    ensures r.Some? ==> lo <= r.value <= hi && ok(r.value)
    ensures r.Some? ==> forall q :: lo <= q < r.value ==> !ok(q)
    ensures r.None? ==> forall q :: lo <= q <= hi ==> !ok(q)
    decreases hi - lo
  {
    if hi < lo then None
    else if ok(lo) then Some(lo)
    else if hi == lo then None
    else FirstAt(lo + 1, hi, ok)
  }

  /** `findall` over `[p, n)` with a matcher `at` that names the group of a
      match at an index and the index it ends at: the scan resumes where a
      match ends. */
  function FindAll(n: nat, p: nat, at: nat -> Option<(string, nat)>): (r: seq<string>)
    requires p <= n
    requires forall q: nat :: at(q).Some? ==> q < at(q).value.1 <= n
    ensures r == [] <==> forall q: nat :: p <= q < n ==> at(q).None?
    ensures forall k :: 0 <= k < |r| ==> exists q: nat :: p <= q < n && at(q).Some? && at(q).value.0 == r[k]
    decreases n - p
  {
    if p == n then []
    else match at(p)
      case Some(m) => [m.0] + FindAll(n, m.1, at)
      case None => FindAll(n, p + 1, at)
  }
}
