/** A Python dictionary with string keys, as the script sees it: its items
    in insertion order. Storing a new key appends it; storing a known key
    keeps its place and replaces its value. */
module Dicts {
  import opened Wrappers

  type Dict<V> = seq<(string, V)>

  /** The keys of a dictionary, in order. */
  function Keys<V>(t: Dict<V>): (r: seq<string>)
    ensures |r| == |t| && forall k :: 0 <= k < |t| ==> r[k] == t[k].0
  {
    if t == [] then [] else [t[0].0] + Keys(t[1..])
  }

  predicate Unique(ks: seq<string>) {
    forall a, b :: 0 <= a < b < |ks| ==> ks[a] != ks[b]
  }

  /** No key twice: what a dictionary's keys are. */
  predicate Distinct<V>(t: Dict<V>) { Unique(Keys(t)) }

  /** `t[name]`, None when the name is not a key. */
  function Lookup<V(==)>(t: Dict<V>, name: string): (r: Option<V>)
    ensures r.Some? <==> name in Keys(t)
    ensures r.Some? ==> (name, r.value) in t
  {
    if t == [] then None
    else if t[0].0 == name then Some(t[0].1)
    else
      assert Keys(t) == [t[0].0] + Keys(t[1..]);
      Lookup(t[1..], name)
  }

  /** `t[name] = value` (`PutLookup`, `PutKeys`). */
  function Put<V>(t: Dict<V>, name: string, value: V): (r: Dict<V>)
    ensures |r| == if name in Keys(t) then |t| else |t| + 1
  {
    if t == [] then [(name, value)]
    else if t[0].0 == name then [(name, value)] + t[1..]
    else
      assert Keys(t) == [t[0].0] + Keys(t[1..]);
      [t[0]] + Put(t[1..], name, value)
  }

  lemma {:induction false} PutLookup<V>(t: Dict<V>, name: string, value: V, n: string)
    ensures Lookup(Put(t, name, value), n) == if n == name then Some(value) else Lookup(t, n)
  {
    if t != [] && t[0].0 != name {
      var p := Put(t[1..], name, value);
      assert ([t[0]] + p)[1..] == p;
      PutLookup(t[1..], name, value, n);
    }
  }

  lemma {:induction false} PutKeys<V>(t: Dict<V>, name: string, value: V)
    ensures Keys(Put(t, name, value)) == if name in Keys(t) then Keys(t) else Keys(t) + [name]
  {
    if t != [] {
      assert Keys(t) == [t[0].0] + Keys(t[1..]);
      if t[0].0 == name {
        assert Keys([(name, value)] + t[1..]) == [name] + Keys(t[1..]);
      } else {
        var p := Put(t[1..], name, value);
        assert ([t[0]] + p)[1..] == p;
        PutKeys(t[1..], name, value);
        assert Keys([t[0]] + p) == [t[0].0] + Keys(p);
      }
    }
  }

  /** Storing keeps the keys distinct. */
  lemma PutDistinct<V>(t: Dict<V>, name: string, value: V)
    requires Distinct(t)
    ensures Distinct(Put(t, name, value))
  {
    PutKeys(t, name, value);
  }

  /** Storing twice under one key is storing the second value. */
  lemma {:induction false} PutPut<V>(t: Dict<V>, name: string, a: V, b: V)
    ensures Put(Put(t, name, a), name, b) == Put(t, name, b)
  {
    if t != [] && t[0].0 != name {
      var p := Put(t[1..], name, a);
      assert ([t[0]] + p)[1..] == p;
      PutPut(t[1..], name, a, b);
    }
  }

  /** The keys and lookups of a dictionary with one more item at the end. */
  lemma {:induction false} LookupSnoc<V>(t: Dict<V>, name: string, value: V, n: string)
    ensures Keys(t + [(name, value)]) == Keys(t) + [name]
    ensures Lookup(t + [(name, value)], n)
      == if Lookup(t, n).Some? then Lookup(t, n) else if n == name then Some(value) else None
  {
    assert Keys(t + [(name, value)]) == Keys(t) + [name];
    if t != [] {
      assert (t + [(name, value)])[1..] == t[1..] + [(name, value)];
      LookupSnoc(t[1..], name, value, n);
    }
  }

  /** In a dictionary, the value stored with the key of an item is that
      item's value. */
  lemma {:induction false} LookupAt<V>(t: Dict<V>, j: nat)
    requires Distinct(t) && j < |t|
    ensures Lookup(t, t[j].0) == Some(t[j].1)
  {
    if j > 0 {
      assert Keys(t[1..]) == Keys(t)[1..];
      assert t[1..][j - 1] == t[j];
      LookupAt(t[1..], j - 1);
      assert t[0].0 != t[j].0 by {
        assert Keys(t)[0] == t[0].0 && Keys(t)[j] == t[j].0;
      }
    }
  }
}
