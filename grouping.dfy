/** Grouping a list by a key, the way a loop filling a dictionary of lists
    does it: each key once, in the order it is first met, with the elements
    that have it, in their order. */
module Grouping {
  import opened Wrappers
  import opened Dicts

  /** The loop from element `i` on: an element with key `c` is appended to
      `groups[c]`, which starts empty; None for an element with no key. */
  function Group<T(==)>(key: T -> Option<string>, xs: seq<T>, i: nat, groups: Dict<seq<T>>)
    : Option<Dict<seq<T>>>
    requires i <= |xs|
    decreases |xs| - i
  {
    if i == |xs| then Some(groups)
    else
      match key(xs[i])
      case None => None
      case Some(c) =>
        var members := if Lookup(groups, c).Some? then Lookup(groups, c).value else [];
        Group(key, xs, i + 1, Put(groups, c, members + [xs[i]]))
  }

  /** The group of `c` so far, empty if there is none yet. */
  function Members0<T(==)>(groups: Dict<seq<T>>, c: string): (r: seq<T>)
    ensures Lookup(groups, c).Some? ==> r == Lookup(groups, c).value
    ensures Lookup(groups, c).None? ==> r == []
  {
    if Lookup(groups, c).Some? then Lookup(groups, c).value else []
  }

  /** One turn of the loop, for an element with key `c`. */
  lemma GroupTurn<T>(key: T -> Option<string>, xs: seq<T>, i: nat, groups: Dict<seq<T>>, c: string)
    requires i < |xs| && key(xs[i]) == Some(c)
    ensures Group(key, xs, i, groups) == Group(key, xs, i + 1, Put(groups, c, Members0(groups, c) + [xs[i]]))
  {
  }

  /** The keys of the elements, in order. */
  function Ids<T>(key: T -> Option<string>, xs: seq<T>): seq<string> {
    if xs == [] then []
    else
      var init := Ids(key, xs[..|xs| - 1]);
      match key(xs[|xs| - 1])
      case None => init
      case Some(c) => init + [c]
  }

  /** The distinct elements of `xs`, in the order they first appear. */
  function FirstSeen(xs: seq<string>): (r: seq<string>)
    ensures Unique(r) && forall x :: x in r <==> x in xs
  {
    if xs == [] then []
    else
      var init := FirstSeen(xs[..|xs| - 1]);
      assert xs == xs[..|xs| - 1] + [xs[|xs| - 1]];
      if xs[|xs| - 1] in init then init else init + [xs[|xs| - 1]]
  }

  /** The elements with key `c`, in order. */
  function Members<T>(key: T -> Option<string>, xs: seq<T>, c: string): seq<T> {
    if xs == [] then []
    else
      var init := Members(key, xs[..|xs| - 1], c);
      if key(xs[|xs| - 1]) == Some(c) then init + [xs[|xs| - 1]] else init
  }

  /** A key occurs exactly when some element has it. */
  lemma {:induction false} IdsHas<T>(key: T -> Option<string>, xs: seq<T>, c: string)
    ensures c in Ids(key, xs) <==> exists i :: 0 <= i < |xs| && key(xs[i]) == Some(c)
  {
    if xs != [] {
      var init := xs[..|xs| - 1];
      IdsHas(key, init, c);
      assert forall i :: 0 <= i < |init| ==> init[i] == xs[i];
    }
  }

  /** Every element of a group has the group's key, and a key that occurs
      has at least one element. */
  lemma {:induction false} MembersHave<T>(key: T -> Option<string>, xs: seq<T>, c: string)
    ensures forall d :: d in Members(key, xs, c) ==> d in xs && key(d) == Some(c)
    ensures c in Ids(key, xs) <==> Members(key, xs, c) != []
  {
    if xs != [] {
      var init := xs[..|xs| - 1];
      MembersHave(key, init, c);
      assert forall d :: d in init ==> d in xs;
    }
  }

  /** What the dictionary holds after the first `i` elements. */
  ghost predicate GroupedUpTo<T>(key: T -> Option<string>, xs: seq<T>, i: nat, groups: Dict<seq<T>>)
    requires i <= |xs|
  {
    Distinct(groups) && Keys(groups) == FirstSeen(Ids(key, xs[..i])) &&
    forall c :: HoldsGroup(key, xs[..i], groups, c)
  }

  /** `groups[c]` holds the elements of `xs` with key `c`, if there are any. */
  ghost predicate HoldsGroup<T>(key: T -> Option<string>, xs: seq<T>, groups: Dict<seq<T>>, c: string) {
    Lookup(groups, c) == if c in Ids(key, xs) then Some(Members(key, xs, c)) else None
  }

  /** Appending an element with key `c` appends `c` to the keys. */
  lemma IdsSnoc<T>(key: T -> Option<string>, xs: seq<T>, i: nat, c: string)
    requires i < |xs| && key(xs[i]) == Some(c)
    ensures Ids(key, xs[..i + 1]) == Ids(key, xs[..i]) + [c]
  {
    assert xs[..i + 1][..i] == xs[..i];
  }

  /** ... and the element to the group of `c`, and to no other group. */
  lemma MembersSnoc<T>(key: T -> Option<string>, xs: seq<T>, i: nat, x: string)
    requires i < |xs|
    ensures Members(key, xs[..i + 1], x)
      == Members(key, xs[..i], x) + (if key(xs[i]) == Some(x) then [xs[i]] else [])
  {
    assert xs[..i + 1][..i] == xs[..i];
  }

  /** A key already seen is not seen again. */
  lemma FirstSeenSnoc(xs: seq<string>, c: string)
    ensures FirstSeen(xs + [c]) == if c in FirstSeen(xs) then FirstSeen(xs) else FirstSeen(xs) + [c]
  {
    assert (xs + [c])[..|xs|] == xs;
  }

  /** The dictionary part of one step of the loop. */
  lemma GroupStepKeys<T>(groups: Dict<seq<T>>, ids: seq<string>, c: string, members: seq<T>)
    requires Distinct(groups) && Keys(groups) == FirstSeen(ids)
    ensures Distinct(Put(groups, c, members)) && Keys(Put(groups, c, members)) == FirstSeen(ids + [c])
  {
    FirstSeenSnoc(ids, c);
    PutKeys(groups, c, members);
    PutDistinct(groups, c, members);
  }

  /** The group of one key after one step of the loop. */
  lemma GroupStepLookup<T>(key: T -> Option<string>, xs: seq<T>, i: nat, groups: Dict<seq<T>>, x: string)
    requires i < |xs| && key(xs[i]).Some?
    requires HoldsGroup(key, xs[..i], groups, key(xs[i]).value) && HoldsGroup(key, xs[..i], groups, x)
    ensures var c := key(xs[i]).value;
      var members := if Lookup(groups, c).Some? then Lookup(groups, c).value else [];
      HoldsGroup(key, xs[..i + 1], Put(groups, c, members + [xs[i]]), x)
  {
    var c := key(xs[i]).value;
    var members := if Lookup(groups, c).Some? then Lookup(groups, c).value else [];
    IdsSnoc(key, xs, i, c);
    MembersSnoc(key, xs, i, x);
    PutLookup(groups, c, members + [xs[i]], x);
    if x == c {
      MembersHave(key, xs[..i], c);
      assert members == Members(key, xs[..i], c);
    } else {
      assert x in Ids(key, xs[..i + 1]) <==> x in Ids(key, xs[..i]);
      assert Members(key, xs[..i], x) + [] == Members(key, xs[..i], x);
    }
  }

  lemma GroupStep<T>(key: T -> Option<string>, xs: seq<T>, i: nat, groups: Dict<seq<T>>)
    requires i < |xs| && GroupedUpTo(key, xs, i, groups) && key(xs[i]).Some?
    ensures var c := key(xs[i]).value;
      var members := if Lookup(groups, c).Some? then Lookup(groups, c).value else [];
      GroupedUpTo(key, xs, i + 1, Put(groups, c, members + [xs[i]]))
  {
    var c := key(xs[i]).value;
    var members := if Lookup(groups, c).Some? then Lookup(groups, c).value else [];
    IdsSnoc(key, xs, i, c);
    GroupStepKeys(groups, Ids(key, xs[..i]), c, members + [xs[i]]);
    var after, next := xs[..i + 1], Put(groups, c, members + [xs[i]]);
    forall x
      ensures HoldsGroup(key, after, next, x)
    {
      GroupStepLookup(key, xs, i, groups, x);
    }
  }

  /** The loop succeeds exactly when every element has a key, and then
      holds every key, in first-seen order, with its elements. */
  lemma {:induction false} GroupFrom<T>(key: T -> Option<string>, xs: seq<T>, i: nat, groups: Dict<seq<T>>)
    requires i <= |xs| && GroupedUpTo(key, xs, i, groups)
    ensures Group(key, xs, i, groups).Some? <==> forall x :: i <= x < |xs| ==> key(xs[x]).Some?
    ensures Group(key, xs, i, groups).Some? ==> GroupedUpTo(key, xs, |xs|, Group(key, xs, i, groups).value)
    decreases |xs| - i
  {
    if i < |xs| {
      match key(xs[i])
      case None =>
        assert Group(key, xs, i, groups) == None;
      case Some(c) =>
        GroupStep(key, xs, i, groups);
        var next := Put(groups, c, Members0(groups, c) + [xs[i]]);
        GroupTurn(key, xs, i, groups, c);
        GroupFrom(key, xs, i + 1, next);
        assert (forall x :: i <= x < |xs| ==> key(xs[x]).Some?)
          <==> (forall x :: i + 1 <= x < |xs| ==> key(xs[x]).Some?);
    }
  }

  /** The whole loop, from an empty dictionary. */
  lemma GroupAll<T>(key: T -> Option<string>, xs: seq<T>)
    ensures Group(key, xs, 0, []).Some? <==> forall x :: 0 <= x < |xs| ==> key(xs[x]).Some?
    ensures Group(key, xs, 0, []).Some? ==>
      var g := Group(key, xs, 0, []).value;
      Distinct(g) && Keys(g) == FirstSeen(Ids(key, xs)) && forall c :: HoldsGroup(key, xs, g, c)
  {
    assert xs[..0] == [];
    var empty: Dict<seq<T>> := [];
    assert GroupedUpTo(key, xs, 0, empty);
    GroupFrom(key, xs, 0, empty);
    assert xs[..|xs|] == xs;
  }

  /** A loop over the groups, in order, that applies `f` to each and stops
      at the first that fails. */
  function MapGroups<T, U, E>(f: seq<T> -> Result<U, E>, groups: Dict<seq<T>>, j: nat): (r: Result<seq<U>, E>)
    requires j <= |groups|
    ensures r.Ok? ==> |r.value| == |groups| - j
    decreases |groups| - j
  {
    if j == |groups| then Ok([])
    else
      var one :- f(groups[j].1);
      var rest :- MapGroups(f, groups, j + 1);
      Ok([one] + rest)
  }

  /** The loop succeeds exactly when `f` does on every group, and then
      holds its results in the order of the groups; otherwise it fails as
      `f` does on some group. */
  lemma {:induction false} MapGroupsAll<T, U, E>(f: seq<T> -> Result<U, E>, groups: Dict<seq<T>>, j: nat)
    requires j <= |groups|
    ensures MapGroups(f, groups, j).Ok? <==> forall k :: j <= k < |groups| ==> f(groups[k].1).Ok?
    ensures MapGroups(f, groups, j).Ok? ==>
      forall k :: j <= k < |groups| ==> MapGroups(f, groups, j).value[k - j] == f(groups[k].1).value
    ensures MapGroups(f, groups, j).Err? ==>
      exists k :: j <= k < |groups| && f(groups[k].1) == Err(MapGroups(f, groups, j).error)
    decreases |groups| - j
  {
    if j < |groups| {
      MapGroupsAll(f, groups, j + 1);
    }
  }

  /** Each group's value when all of them succeed. */
  lemma MapGroupsAt<T, U, E>(f: seq<T> -> Result<U, E>, groups: Dict<seq<T>>, k: nat)
    requires MapGroups(f, groups, 0).Ok? && k < |groups|
    ensures k < |MapGroups(f, groups, 0).value| && f(groups[k].1) == Ok(MapGroups(f, groups, 0).value[k])
  {
    MapGroupsAll(f, groups, 0);
  }

  /** `xs` in front of what `r` holds, if it holds anything. */
  function Prepend<U, E>(xs: seq<U>, r: Result<seq<U>, E>): (p: Result<seq<U>, E>)
    ensures p.Err? <==> r.Err?
    ensures p.Ok? ==> |p.value| == |xs| + |r.value|
  {
    if r.Ok? then Ok(xs + r.value) else r
  }

  lemma PrependPrepend<U, E>(xs: seq<U>, ys: seq<U>, r: Result<seq<U>, E>)
    ensures Prepend(xs, Prepend(ys, r)) == Prepend(xs + ys, r)
  {
    if r.Ok? {
      assert xs + (ys + r.value) == (xs + ys) + r.value;
    }
  }

  lemma PrependNil<U, E>(r: Result<seq<U>, E>)
    ensures Prepend([], r) == r
    ensures r.Ok? ==> Prepend(r.value, Ok([])) == r
  {
    if r.Ok? {
      assert [] + r.value == r.value + [] == r.value;
    }
  }

  /** One turn of the loop. */
  lemma MapGroupsStep<T, U, E>(f: seq<T> -> Result<U, E>, groups: Dict<seq<T>>, j: nat)
    requires j < |groups|
    ensures f(groups[j].1).Err? ==> MapGroups(f, groups, j) == Err(f(groups[j].1).error)
    ensures f(groups[j].1).Ok? ==>
      MapGroups(f, groups, j) == Prepend([f(groups[j].1).value], MapGroups(f, groups, j + 1))
  {
  }
}
