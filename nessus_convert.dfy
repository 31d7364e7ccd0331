/** The result roll-up of `nessus_convert/nessus_convert.py`: compliance
    results read from a Nessus report are records (dictionaries from field
    names to texts). `rollup` groups a host's results by `control_id` and
    collapses every group of several results into one record; `sanitize_ids`
    drops the internal `*_id` fields; `field_order_key` orders the columns
    of the CSV output. */
module NessusConvert {
  import opened Wrappers
  import opened Text
  import opened Dicts
  import opened Grouping

  type Record = Dict<string>

  /** `NoControl` is the exit with status 1 for a result without a
      `control_id`, and `NoData` the one for an empty group; `KeyError` and
      `IndexError` are the exceptions `collapse` raises. */
  datatype Error = NoControl | NoData | KeyError | IndexError

  // ---------------------------------------------------------------------
  // Column order

  const FieldOrder: seq<string> := ["target", "result", "check_name", "info", "solution",
    "see_also", "reference", "policy_value", "actual_value", "error"]

  /** `xs.index(x)`, None where Python raises `ValueError`. */
  function IndexIn(xs: seq<string>, x: string): (r: Option<nat>)
    ensures r.Some? ==> r.value < |xs| && xs[r.value] == x && x !in xs[..r.value]
    ensures r.None? ==> x !in xs
  {
    if xs == [] then None
    else if xs[0] == x then Some(0)
    else match IndexIn(xs[1..], x)
      case None => None
      case Some(k) =>
        assert xs[..k + 1] == [xs[0]] + xs[1..][..k];
        Some(k + 1)
  }

  /** `field_order_key`: a listed field sorts by its place in the list, any
      other by 999; ties go by the lower-cased name. */
  function FieldOrderKey(item: string): (r: (nat, string))
    ensures item in FieldOrder ==> r.0 < |FieldOrder| && FieldOrder[r.0] == item
    ensures item !in FieldOrder ==> r.0 == 999
    ensures r.1 == Lower(item)
  {
    match IndexIn(FieldOrder, item)
    case Some(k) => (k, Lower(item))
    case None => (999, Lower(item))
  }

  /** Python's `<` on the key tuples. */
  predicate KeyLess(a: (nat, string), b: (nat, string)) {
    a.0 < b.0 || (a.0 == b.0 && LexLess(a.1, b.1))
  }

  /** `sorted(fields, key=field_order_key)` puts every listed field before
      every other one. */
  lemma ListedFirst(a: string, b: string)
    requires a in FieldOrder && b !in FieldOrder
    ensures KeyLess(FieldOrderKey(a), FieldOrderKey(b))
  {
  }

  /** No field is listed twice. */
  lemma FieldOrderUnique()
    ensures Unique(FieldOrder)
  {
  }

  /** Listed fields keep the order of the list. */
  lemma ListedInOrder(i: nat, j: nat)
    requires i < j < |FieldOrder|
    ensures KeyLess(FieldOrderKey(FieldOrder[i]), FieldOrderKey(FieldOrder[j]))
  {
    FieldOrderUnique();
    assert FieldOrderKey(FieldOrder[i]).0 == i;
    assert FieldOrderKey(FieldOrder[j]).0 == j;
  }

  /** Unlisted fields go by their lower-cased names. */
  lemma UnlistedByName(a: string, b: string)
    requires a !in FieldOrder && b !in FieldOrder
    ensures KeyLess(FieldOrderKey(a), FieldOrderKey(b)) <==> LexLess(Lower(a), Lower(b))
  {
  }

  /** The key order is a strict order, so `sorted` is well defined. */
  lemma KeyLessOrder(a: (nat, string), b: (nat, string), c: (nat, string))
    ensures !KeyLess(a, a)
    ensures KeyLess(a, b) && KeyLess(b, c) ==> KeyLess(a, c)
  {
    LexLessIrreflexive(a.1);
    if KeyLess(a, b) && KeyLess(b, c) && a.0 == b.0 && b.0 == c.0 {
      LexLessTransitive(a.1, b.1, c.1);
    }
  }

  // ---------------------------------------------------------------------
  // Dropping identifiers

  /** `k[-3:] != '_id'`: Python's `k[-3:]` is the whole key when it is
      shorter than three characters. */
  predicate KeepField(k: string) {
    (if |k| >= 3 then k[|k| - 3..] else k) != "_id"
  }

  lemma KeepFieldSuffix(k: string)
    ensures KeepField(k) <==> !EndsWith(k, "_id")
  {
  }

  /** The keys of `keys` that `sanitize_ids` keeps, in order. */
  function KeptKeys(keys: seq<string>): (r: seq<string>)
    ensures forall x :: x in r <==> x in keys && KeepField(x)
  {
    if keys == [] then []
    else
      var init := KeptKeys(keys[..|keys| - 1]);
      assert keys == keys[..|keys| - 1] + [keys[|keys| - 1]];
      if KeepField(keys[|keys| - 1]) then init + [keys[|keys| - 1]] else init
  }

  /** The record `sanitize_ids` makes of one item: each kept field stored
      in turn, `new_item[k] = item[k]`. */
  function Sanitized(item: Record): Record {
    if item == [] then []
    else
      var s := Sanitized(item[..|item| - 1]);
      var last := item[|item| - 1];
      if KeepField(last.0) then Put(s, last.0, last.1) else s
  }

  /** The new record holds exactly the kept fields of the old one, in their
      order and with their values. */
  lemma {:induction false} SanitizedFields(item: Record, k: string)
    requires Distinct(item)
    ensures Keys(Sanitized(item)) == KeptKeys(Keys(item))
    ensures Distinct(Sanitized(item))
    ensures Lookup(Sanitized(item), k) == if KeepField(k) then Lookup(item, k) else None
  {
    if item != [] {
      var init := item[..|item| - 1];
      var last := item[|item| - 1];
      assert item == init + [last];
      LookupSnoc(init, last.0, last.1, k);
      assert Keys(init) == Keys(item)[..|init|];
      assert Distinct(init);
      assert last.0 !in Keys(init);
      SanitizedFields(init, k);
      var s := Sanitized(init);
      if KeepField(last.0) {
        PutKeys(s, last.0, last.1);
        PutDistinct(s, last.0, last.1);
        PutLookup(s, last.0, last.1, k);
      }
    }
  }

  /** `sanitize_ids`: one new record per item, in order. */
  method SanitizeIds(data: seq<Record>) returns (r: seq<Record>)
    ensures |r| == |data| && forall i :: 0 <= i < |data| ==> r[i] == Sanitized(data[i])
  {
    r := [];
    for i := 0 to |data|
      invariant |r| == i && forall x :: 0 <= x < i ==> r[x] == Sanitized(data[x])
    {
      var item := data[i];
      var newItem: Record := [];
      for j := 0 to |item|
        invariant newItem == Sanitized(item[..j])
      {
        assert item[..j + 1][..j] == item[..j];
        // `item[k]` of a dictionary is the value stored with `k`.
        var k := item[j].0;
        if KeepField(k) {
          newItem := Put(newItem, k, item[j].1);
        }
      }
      assert item[..|item|] == item;
      r := r + [newItem];
    }
  }

  // ---------------------------------------------------------------------
  // Collapsing a group: the name

  /** The longest common prefix of two texts (the first loop of
      `collapse`). */
  function CommonPrefix(a: string, b: string): (r: string)
    ensures |r| <= |a| && |r| <= |b| && r == a[..|r|] && r == b[..|r|]
    ensures |r| == |a| || |r| == |b| || a[|r|] != b[|r|]
  {
    if a == [] || b == [] || a[0] != b[0] then ""
    else
      var p := CommonPrefix(a[1..], b[1..]);
      assert a[..|p| + 1] == [a[0]] + a[1..][..|p|];
      assert b[..|p| + 1] == [b[0]] + b[1..][..|p|];
      [a[0]] + p
  }

  /** A common prefix that cannot be extended is the longest one. */
  lemma CommonPrefixIs(a: string, b: string, p: string)
    requires |p| <= |a| && |p| <= |b| && p == a[..|p|] && p == b[..|p|]
    requires |p| == |a| || |p| == |b| || a[|p|] != b[|p|]
    ensures p == CommonPrefix(a, b)
  {
  }

  const Dash := " - "

  /** `' - '.join(desc.split(' - ')[:-1])` when `' - '` is in the name. */
  function CutName(desc: string): string {
    if Contains(desc, Dash) then
      var p := SplitOn(desc, Dash);
      Join(p[..|p| - 1], Dash)
    else desc
  }

  /** The name is cut just before an occurrence of `' - '` after which no
      whole `' - '` follows, and is left alone without one. */
  lemma CutNameBefore(desc: string)
    ensures !Contains(desc, Dash) ==> CutName(desc) == desc
    ensures Contains(desc, Dash) ==>
      exists rest :: CutName(desc) + Dash + rest == desc && !Contains(rest, Dash)
  {
    if Contains(desc, Dash) {
      SplitOnInit(desc, Dash);
      var p := SplitOn(desc, Dash);
      assert CutName(desc) + Dash + p[|p| - 1] == desc;
    }
  }

  // ---------------------------------------------------------------------
  // Collapsing a group: the fields

  const Multiple := "multiple"

  /** `result_value`: how severe a result is; None where it has no entry. */
  function Severity(result: string): (r: Option<nat>)
    ensures r.Some? <==> result in {"ERROR", "FAILED", "WARNING", "PASSED"}
    ensures r.Some? ==> 1 <= r.value <= 4
    ensures result == "ERROR" ==> r == Some(4)
    ensures result == "FAILED" ==> r == Some(3)
    ensures result == "WARNING" ==> r == Some(2)
    ensures result == "PASSED" ==> r == Some(1)
  {
    if result == "ERROR" then Some(4)
    else if result == "FAILED" then Some(3)
    else if result == "WARNING" then Some(2)
    else if result == "PASSED" then Some(1)
    else None
  }

  /** The known results are strictly ordered ERROR > FAILED > WARNING >
      PASSED, so two known results of equal severity are the same. */
  lemma SeverityOrder(a: string, b: string)
    ensures Severity("ERROR").value > Severity("FAILED").value > Severity("WARNING").value > Severity("PASSED").value
    ensures Severity(a).Some? && Severity(b).Some? && Severity(a) == Severity(b) ==> a == b
  {
  }

  /** `result_value[r]`, which raises `KeyError` for an unknown result. */
  function Rank(result: string): (r: Result<nat, Error>)
    ensures r.Ok? <==> Severity(result).Some?
  {
    match Severity(result)
    case None => Err(KeyError)
    case Some(n) => Ok(n)
  }

  /** `d[k]`, which raises `KeyError` for a missing key. */
  function Field(d: Record, k: string): (r: Result<string, Error>)
    ensures r.Ok? <==> k in Keys(d)
    ensures r.Ok? ==> Lookup(d, k) == Some(r.value)
  {
    match Lookup(d, k)
    case None => Err(KeyError)
    case Some(v) => Ok(v)
  }

  /** The fields `collapse` does not merge into the collapsed record. */
  predicate Unmerged(k: string) {
    k == "reference" || k == "check_name" || k == "actual_value" || k == "error"
  }

  /** What one field of an item does to the collapsed record: the first
      result is taken and a later one only when more severe; a field seen
      for the first time is taken, and one whose value differs from the
      stored one becomes `'multiple'`. */
  function MergeStep(k: string, v: string, c: Record): (r: Result<Record, Error>)
    ensures r.Err? ==> r.error == KeyError
  {
    if k == "result" then
      match Lookup(c, k)
      case None => Ok(Put(c, k, v))
      case Some(cur) =>
        var n :- Rank(v);
        var o :- Rank(cur);
        Ok(if n > o then Put(c, k, v) else c)
    else if Unmerged(k) then Ok(c)
    else
      match Lookup(c, k)
      case None => Ok(Put(c, k, v))
      case Some(cur) => Ok(if v != cur then Put(c, k, Multiple) else c)
  }

  /** The fields of all items, in the order the loops visit them. */
  function Flat(data: seq<Record>): seq<(string, string)> {
    if data == [] then [] else data[0] + Flat(data[1..])
  }

  /** The collapsed record after the fields `es`. */
  function Merge(es: seq<(string, string)>, c: Record): (r: Result<Record, Error>)
    ensures r.Err? ==> r.error == KeyError
    decreases |es|
  {
    if es == [] then Ok(c)
    else
      var next :- MergeStep(es[0].0, es[0].1, c);
      Merge(es[1..], next)
  }

  /** `set(v.split(','))` for a `reference` field, nothing for another. */
  function Pieces(k: string, v: string): set<string> {
    if k == "reference" then set p | p in Split(v, ',') else {}
  }

  /** The references the fields `es` add to `refs`. */
  function Refs(es: seq<(string, string)>): set<string>
    decreases |es|
  {
    if es == [] then {} else Pieces(es[0].0, es[0].1) + Refs(es[1..])
  }

  /** The parts of one item's summary line. */
  datatype Line = Line(shortDesc: string, actualDesc: string, actualValue: string)

  const Blank := Line("", "", "")

  /** Each line of a value on a line of its own, indented by two. */
  function Indent(lines: seq<string>): string {
    if lines == [] then ""
    else Indent(lines[..|lines| - 1]) + "\n  " + ReplaceAll(lines[|lines| - 1], "{}", "{{}}")
  }

  /** What one field of an item does to its summary line. */
  function NoteStep(desc: string, k: string, v: string, l: Line): Line {
    if k == "result" then l.(actualDesc := v)
    else if k == "check_name" then l.(shortDesc := ReplaceAll(v, desc, ""))
    else if k == "actual_value" || k == "error" then l.(actualValue := Indent(Split(v, '\n')))
    else l
  }

  function Note(desc: string, es: seq<(string, string)>, l: Line): Line
    decreases |es|
  {
    if es == [] then l else Note(desc, es[1..], NoteStep(desc, es[0].0, es[0].1, l))
  }

  /** `'{} {}:{}'.format(actual_desc, short_desc.strip(), actual_value)`. */
  function Summary(l: Line): string {
    l.actualDesc + " " + Strip(l.shortDesc) + ":" + l.actualValue
  }

  /** One summary line per item, in order. */
  function Summaries(desc: string, data: seq<Record>): (r: seq<string>)
    ensures |r| == |data|
  {
    if data == [] then []
    else Summaries(desc, data[..|data| - 1]) + [Summary(Note(desc, data[|data| - 1], Blank))]
  }

  predicate Least(m: string, s: set<string>) {
    m in s && forall x :: x in s ==> !LexLess(x, m)
  }

  lemma {:induction false} LeastExists(s: set<string>)
    requires s != {}
    ensures exists m :: Least(m, s)
    decreases |s|
  {
    var y :| y in s;
    if s - {y} == {} {
      assert s == {y};
      LexLessIrreflexive(y);
      assert Least(y, s);
    } else {
      LeastExists(s - {y});
      var m :| Least(m, s - {y});
      if LexLess(y, m) {
        forall x | x in s
          ensures !LexLess(x, y)
        {
          if x == y {
            LexLessIrreflexive(y);
          } else if LexLess(x, y) {
            LexLessTransitive(x, y, m);
          }
        }
        assert Least(y, s);
      } else {
        assert Least(m, s);
      }
    }
  }

  lemma LeastBelow(m: string, s: set<string>)
    requires Least(m, s)
    ensures forall x :: x in s && x != m ==> LexLess(m, x)
    ensures forall a :: Least(a, s) ==> a == m
  {
    forall x | x in s && x != m
      ensures LexLess(m, x)
    {
      LexLessTotal(m, x);
    }
  }

  predicate Increasing(r: seq<string>) {
    forall a, b :: 0 <= a < b < |r| ==> LexLess(r[a], r[b])
  }

  /** `sorted(refs)`: the texts of a set in increasing order. */
  function SortedSet(s: set<string>): (r: seq<string>)
    ensures |r| == |s| && Increasing(r) && forall x :: x in r <==> x in s
    decreases |s|
  {
    if s == {} then []
    else
      LeastExists(s);
      var m0 :| Least(m0, s);
      LeastBelow(m0, s);
      var m :| Least(m, s);
      var rest := SortedSet(s - {m});
      LeastFirst(m, s, rest);
      [m] + rest
  }

  /** The least element in front of the others in order. */
  lemma LeastFirst(m: string, s: set<string>, rest: seq<string>)
    requires Least(m, s) && |rest| == |s - {m}| && Increasing(rest)
    requires forall x :: x in rest <==> x in s - {m}
    ensures |[m] + rest| == |s| && Increasing([m] + rest) && forall x :: x in [m] + rest <==> x in s
  {
    LeastBelow(m, s);
    var r := [m] + rest;
    forall a, b | 0 <= a < b < |r|
      ensures LexLess(r[a], r[b])
    {
      assert r[b] == rest[b - 1];
      if a > 0 {
        assert r[a] == rest[a - 1];
      } else {
        assert rest[b - 1] in rest;
      }
    }
  }

  /** `collapse`: one record standing for a group of results. */
  function Collapsed(data: seq<Record>): (r: Result<Record, Error>)
    ensures r.Err? ==> r.error == KeyError || r.error == IndexError
  {
    if |data| == 0 then Err(IndexError)
    else
      var a :- Field(data[0], "check_name");
      if |data| == 1 then Err(IndexError)
      else
        var b :- Field(data[1], "check_name");
        var desc := CutName(CommonPrefix(a, b));
        var merged :- Merge(Flat(data), [("check_name", desc)]);
        Finish(merged, Join(SortedSet(Refs(Flat(data))), ","), Join(Summaries(desc, data), "\n"))
  }

  /** The end of `collapse`: the references, then the summary lines under
      `error` when the result is ERROR and under `actual_value` otherwise. */
  function Finish(merged: Record, refs: string, text: string): (r: Result<Record, Error>)
    ensures r.Err? ==> r.error == KeyError
  {
    var c := Put(merged, "reference", refs);
    var result :- Field(c, "result");
    Ok(Put(c, if result == "ERROR" then "error" else "actual_value", text))
  }

  /** The loop building `actual_value` from the lines of a value. */
  method IndentValue(v: string) returns (r: string)
    ensures r == Indent(Split(v, '\n'))
  {
    var lines := Split(v, '\n');
    r := "";
    for m := 0 to |lines|
      invariant r == Indent(lines[..m])
    {
      assert lines[..m + 1][..m] == lines[..m];
      r := r + "\n  " + ReplaceAll(lines[m], "{}", "{{}}");
    }
    assert lines[..|lines|] == lines;
  }

  // ---------------------------------------------------------------------
  // What the collapsed record holds

  /** The values of the fields in `es` whose key is in `ks`, in order. */
  function Values(es: seq<(string, string)>, ks: set<string>): seq<string>
    decreases |es|
  {
    if es == [] then []
    else (if es[0].0 in ks then [es[0].1] else []) + Values(es[1..], ks)
  }

  /** The results of a group, in order. */
  function Results(data: seq<Record>): seq<string> {
    Values(Flat(data), {"result"})
  }

  /** The result `collapse` keeps: the first one, replaced by every later
      one more severe than it. */
  function Worst(cur: Option<string>, rs: seq<string>): Result<Option<string>, Error>
    decreases |rs|
  {
    if rs == [] then Ok(cur)
    else
      match cur
      case None => Worst(Some(rs[0]), rs[1..])
      case Some(c) =>
        var n :- Rank(rs[0]);
        var o :- Rank(c);
        Worst(Some(if n > o then rs[0] else c), rs[1..])
  }

  /** From a stored result on, the kept result is defined exactly when all
      results are known, and it is then the most severe of them. */
  lemma {:induction false} WorstFrom(c: string, rs: seq<string>)
    requires rs != []
    ensures Worst(Some(c), rs).Ok? <==> Severity(c).Some? && forall i :: 0 <= i < |rs| ==> Severity(rs[i]).Some?
    ensures Worst(Some(c), rs).Ok? ==> (Worst(Some(c), rs).value.Some? &&
      var v := Worst(Some(c), rs).value.value;
      (v == c || v in rs) && Severity(c).value <= Severity(v).value &&
      forall i :: 0 <= i < |rs| ==> Severity(rs[i]).value <= Severity(v).value)
    decreases |rs|
  {
    if Severity(rs[0]).Some? && Severity(c).Some? {
      var next := if Severity(rs[0]).value > Severity(c).value then rs[0] else c;
      if |rs| > 1 {
        WorstFrom(next, rs[1..]);
        if Worst(Some(c), rs).Ok? {
          var v := Worst(Some(c), rs).value.value;
          assert forall i :: 1 <= i < |rs| ==> rs[i] == rs[1..][i - 1];
          assert v == next || v in rs[1..];
        }
      }
    }
  }

  /** The result of a group: none without results, the only one for a
      single result, and otherwise, when every result is known, the most
      severe; an unknown result among several raises `KeyError`. */
  lemma WorstOf(rs: seq<string>)
    ensures rs == [] ==> Worst(None, rs) == Ok(None)
    ensures |rs| == 1 ==> Worst(None, rs) == Ok(Some(rs[0]))
    ensures |rs| >= 2 ==> (Worst(None, rs).Ok? <==> forall i :: 0 <= i < |rs| ==> Severity(rs[i]).Some?)
    ensures |rs| >= 1 && Worst(None, rs).Ok? ==> (Worst(None, rs).value.Some? &&
      var v := Worst(None, rs).value.value;
      v in rs && (|rs| >= 2 ==> (Severity(v).Some? &&
        forall i :: 0 <= i < |rs| ==> Severity(rs[i]).Some? && Severity(rs[i]).value <= Severity(v).value)))
  {
    if |rs| >= 2 {
      WorstMany(rs);
      if Worst(None, rs).Ok? {
        WorstMost(rs);
      }
    } else if |rs| == 1 {
      assert Worst(None, rs) == Worst(Some(rs[0]), []);
    }
  }

  /** Several results have a kept one exactly when all are known. */
  lemma WorstMany(rs: seq<string>)
    requires |rs| >= 2
    ensures Worst(None, rs).Ok? <==> forall i :: 0 <= i < |rs| ==> Severity(rs[i]).Some?
  {
    var c, t := rs[0], rs[1..];
    assert Worst(None, rs) == Worst(Some(c), t);
    WorstFrom(c, t);
    if forall i :: 0 <= i < |rs| ==> Severity(rs[i]).Some? {
      forall i | 0 <= i < |t| ensures Severity(t[i]).Some? {
        assert t[i] == rs[i + 1];
      }
    } else {
      var i :| 0 <= i < |rs| && Severity(rs[i]).None?;
      if i > 0 {
        assert t[i - 1] == rs[i];
      }
    }
  }

  /** The kept result of several is one of them and the most severe. */
  lemma WorstMost(rs: seq<string>)
    requires |rs| >= 2 && Worst(None, rs).Ok?
    ensures Worst(None, rs).value.Some?
    ensures var v := Worst(None, rs).value.value;
      v in rs && Severity(v).Some? &&
      forall i :: 0 <= i < |rs| ==> Severity(rs[i]).Some? && Severity(rs[i]).value <= Severity(v).value
  {
    var c, t := rs[0], rs[1..];
    assert Worst(None, rs) == Worst(Some(c), t);
    WorstFrom(c, t);
    WorstAll(rs);
    var v := Worst(None, rs).value.value;
    forall i | 0 <= i < |rs|
      ensures Severity(rs[i]).Some? && Severity(rs[i]).value <= Severity(v).value
    {
      if i > 0 { assert rs[i] == t[i - 1]; }
    }
  }

  /** The results after the first are `rs[1..]`, index for index. */
  lemma WorstAll(rs: seq<string>)
    requires |rs| >= 2
    ensures forall i :: 1 <= i < |rs| ==> rs[i] == rs[1..][i - 1]
    ensures forall v :: v in rs[1..] ==> v in rs
  {
  }

  /** What a merged field holds: the first value, or `'multiple'` as soon as
      a value differs from the stored one. */
  function Agree(cur: Option<string>, vs: seq<string>): Option<string>
    decreases |vs|
  {
    if vs == [] then cur
    else
      match cur
      case None => Agree(Some(vs[0]), vs[1..])
      case Some(c) => Agree(Some(if vs[0] != c then Multiple else c), vs[1..])
  }

  /** A merged field keeps its value when every later value agrees with it
      and is `'multiple'` otherwise. */
  lemma {:induction false} AgreeFrom(c: string, vs: seq<string>)
    ensures Agree(Some(c), vs) == Some(if forall i :: 0 <= i < |vs| ==> vs[i] == c then c else Multiple)
    decreases |vs|
  {
    if vs != [] {
      if vs[0] != c {
        AgreeFrom(Multiple, vs[1..]);
      } else {
        AgreeFrom(c, vs[1..]);
        assert forall i :: 1 <= i < |vs| ==> vs[i] == vs[1..][i - 1];
      }
    }
  }

  /** A field holds the value all its values agree on, `'multiple'` when
      two differ, and nothing without values. */
  lemma AgreeOf(vs: seq<string>)
    ensures Agree(None, vs)
      == if vs == [] then None else Some(if forall i :: 0 <= i < |vs| ==> vs[i] == vs[0] then vs[0] else Multiple)
  {
    if vs != [] {
      AgreeFrom(vs[0], vs[1..]);
      assert forall i :: 1 <= i < |vs| ==> vs[i] == vs[1..][i - 1];
    }
  }

  /** The fields `collapse` handles on their own are left as they were. */
  lemma {:induction false} MergeUnmerged(es: seq<(string, string)>, c: Record, k: string)
    requires Unmerged(k) && Merge(es, c).Ok?
    ensures Lookup(Merge(es, c).value, k) == Lookup(c, k)
    decreases |es|
  {
    if es != [] {
      var next := MergeStep(es[0].0, es[0].1, c).value;
      MergeUnmerged(es[1..], next, k);
      if es[0].0 != k {
        MergeStepOther(es[0].0, es[0].1, c, k);
      }
    }
  }

  /** One field changes the collapsed record only at its own key. */
  lemma MergeStepOther(f: string, v: string, c: Record, k: string)
    requires MergeStep(f, v, c).Ok? && k != f
    ensures Lookup(MergeStep(f, v, c).value, k) == Lookup(c, k)
  {
    MergeStepShape(f, v, c);
    PutLookup(c, f, v, k);
    PutLookup(c, f, Multiple, k);
  }

  /** A field leaves the collapsed record as it was, stores its value, or
      stores `'multiple'`, always at its own key. */
  lemma MergeStepShape(f: string, v: string, c: Record)
    ensures MergeStep(f, v, c).Ok? ==>
      var n := MergeStep(f, v, c).value;
      n == c || n == Put(c, f, v) || n == Put(c, f, Multiple)
  {
  }

  /** The stored result follows `Worst` over the results, and merging fails
      exactly when `Worst` does. */
  lemma {:induction false} MergeResult(es: seq<(string, string)>, c: Record)
    ensures Merge(es, c).Ok? <==> Worst(Lookup(c, "result"), Values(es, {"result"})).Ok?
    ensures Merge(es, c).Ok? ==>
      Lookup(Merge(es, c).value, "result") == Worst(Lookup(c, "result"), Values(es, {"result"})).value
    decreases |es|
  {
    if es != [] {
      var k, v := es[0].0, es[0].1;
      if k == "result" {
        PutLookup(c, k, v, k);
        if MergeStep(k, v, c).Ok? {
          MergeResult(es[1..], MergeStep(k, v, c).value);
        }
      } else {
        assert Values(es, {"result"}) == Values(es[1..], {"result"});
        assert MergeStep(k, v, c).Ok?;
        MergeStepOther(k, v, c, "result");
        MergeResult(es[1..], MergeStep(k, v, c).value);
      }
    }
  }

  /** A merged field follows `Agree` over its values. */
  lemma {:induction false} MergeAgree(es: seq<(string, string)>, c: Record, k: string)
    requires k != "result" && !Unmerged(k) && Merge(es, c).Ok?
    ensures Lookup(Merge(es, c).value, k) == Agree(Lookup(c, k), Values(es, {k}))
    decreases |es|
  {
    if es != [] {
      var f, v := es[0].0, es[0].1;
      var next := MergeStep(f, v, c).value;
      MergeAgree(es[1..], next, k);
      if f == k {
        assert Values(es, {k}) == [v] + Values(es[1..], {k});
        PutLookup(c, k, v, k);
        PutLookup(c, k, Multiple, k);
      } else {
        assert Values(es, {k}) == Values(es[1..], {k});
        MergeStepOther(f, v, c, k);
      }
    }
  }

  /** The references are the comma-separated parts of every `reference`
      field. */
  lemma {:induction false} RefsMembers(es: seq<(string, string)>, x: string)
    ensures x in Refs(es) <==> exists i :: 0 <= i < |es| && es[i].0 == "reference" && x in Split(es[i].1, ',')
    decreases |es|
  {
    if es != [] {
      RefsMembers(es[1..], x);
      assert forall i :: 1 <= i < |es| ==> es[i] == es[1..][i - 1];
      if x in Refs(es[1..]) {
        var i :| 0 <= i < |es[1..]| && es[1..][i].0 == "reference" && x in Split(es[1..][i].1, ',');
        assert es[i + 1] == es[1..][i];
      }
    }
  }

  /** The last element of `xs`, `d` when there is none. */
  function LastOr(xs: seq<string>, d: string): string {
    if xs == [] then d else xs[|xs| - 1]
  }

  /** Each part of a summary line comes from the last field that sets it:
      the result (`NoteResult`), the name without the common part
      (`NoteName`), and the indented value of the last `actual_value` or
      `error` (`NoteValue`). */
  lemma {:induction false} NoteResult(desc: string, es: seq<(string, string)>, l: Line)
    ensures Note(desc, es, l).actualDesc == LastOr(Values(es, {"result"}), l.actualDesc)
    decreases |es|
  {
    if es != [] {
      NoteResult(desc, es[1..], NoteStep(desc, es[0].0, es[0].1, l));
    }
  }

  lemma {:induction false} NoteName(desc: string, es: seq<(string, string)>, l: Line)
    ensures var names := Values(es, {"check_name"});
      Note(desc, es, l).shortDesc == if names == [] then l.shortDesc else ReplaceAll(LastOr(names, ""), desc, "")
    decreases |es|
  {
    if es != [] {
      NoteName(desc, es[1..], NoteStep(desc, es[0].0, es[0].1, l));
    }
  }

  lemma {:induction false} NoteValue(desc: string, es: seq<(string, string)>, l: Line)
    ensures var values := Values(es, {"actual_value", "error"});
      Note(desc, es, l).actualValue == if values == [] then l.actualValue else Indent(Split(LastOr(values, ""), '\n'))
    decreases |es|
  {
    if es != [] {
      NoteValue(desc, es[1..], NoteStep(desc, es[0].0, es[0].1, l));
    }
  }

  lemma {:induction false} SummariesAt(desc: string, data: seq<Record>, i: nat)
    requires i < |data|
    ensures Summaries(desc, data)[i] == Summary(Note(desc, data[i], Blank))
  {
    var init := data[..|data| - 1];
    var last := [Summary(Note(desc, data[|data| - 1], Blank))];
    assert Summaries(desc, data) == Summaries(desc, init) + last;
    if i < |data| - 1 {
      SummariesAt(desc, init, i);
      assert init[i] == data[i];
    }
  }

  lemma FinishLookup(merged: Record, refs: string, text: string, k: string)
    ensures Finish(merged, refs, text).Ok? <==> Lookup(merged, "result").Some?
    ensures Finish(merged, refs, text).Ok? ==>
      var key := if Lookup(merged, "result") == Some("ERROR") then "error" else "actual_value";
      Lookup(Finish(merged, refs, text).value, k)
        == if k == key then Some(text) else if k == "reference" then Some(refs) else Lookup(merged, k)
  {
    var c := Put(merged, "reference", refs);
    PutLookup(merged, "reference", refs, "result");
    PutLookup(merged, "reference", refs, k);
    PutLookup(c, "error", text, k);
    PutLookup(c, "actual_value", text, k);
  }

  /** The name `collapse` gives a group whose first two items have names. */
  function Desc(data: seq<Record>): string
    requires |data| >= 2 && Lookup(data[0], "check_name").Some? && Lookup(data[1], "check_name").Some?
  {
    CutName(CommonPrefix(Lookup(data[0], "check_name").value, Lookup(data[1], "check_name").value))
  }

  /** A collapsed group, step by step. */
  lemma CollapsedParts(data: seq<Record>)
    requires Collapsed(data).Ok?
    ensures |data| >= 2 && Lookup(data[0], "check_name").Some? && Lookup(data[1], "check_name").Some?
    ensures Merge(Flat(data), [("check_name", Desc(data))]).Ok?
    ensures Collapsed(data) == Finish(Merge(Flat(data), [("check_name", Desc(data))]).value,
      Join(SortedSet(Refs(Flat(data))), ","), Join(Summaries(Desc(data), data), "\n"))
  {
  }

  /** The collapsed name is the longest common prefix of the first two
      names, cut at `' - '` (see `CutNameBefore`). */
  lemma CollapsedName(data: seq<Record>)
    requires Collapsed(data).Ok?
    ensures |data| >= 2 && Lookup(data[0], "check_name").Some? && Lookup(data[1], "check_name").Some?
    ensures Lookup(Collapsed(data).value, "check_name")
      == Some(CutName(CommonPrefix(Lookup(data[0], "check_name").value, Lookup(data[1], "check_name").value)))
  {
    CollapsedParts(data);
    var start: Record := [("check_name", Desc(data))];
    MergeUnmerged(Flat(data), start, "check_name");
    FinishLookup(Merge(Flat(data), start).value, Join(SortedSet(Refs(Flat(data))), ","),
      Join(Summaries(Desc(data), data), "\n"), "check_name");
  }

  /** The collapsed reference is the sorted references of all items
      (`SortedSet`, `RefsMembers`). */
  lemma CollapsedReference(data: seq<Record>)
    requires Collapsed(data).Ok?
    ensures Lookup(Collapsed(data).value, "reference") == Some(Join(SortedSet(Refs(Flat(data))), ","))
  {
    CollapsedParts(data);
    var start: Record := [("check_name", Desc(data))];
    FinishLookup(Merge(Flat(data), start).value, Join(SortedSet(Refs(Flat(data))), ","),
      Join(Summaries(Desc(data), data), "\n"), "reference");
  }

  /** `collapse` fails exactly when a group has fewer than two items, one
      of the first two has no name, no item has a result, or there are
      several results and one of them is unknown. */
  lemma CollapsedFails(data: seq<Record>)
    ensures Collapsed(data).Err? <==>
      |data| < 2 || Lookup(data[0], "check_name").None? || Lookup(data[1], "check_name").None? ||
      Results(data) == [] ||
      (|Results(data)| >= 2 && exists i :: 0 <= i < |Results(data)| && Severity(Results(data)[i]).None?)
  {
    if |data| >= 2 && Lookup(data[0], "check_name").Some? && Lookup(data[1], "check_name").Some? {
      var start: Record := [("check_name", Desc(data))];
      MergeResult(Flat(data), start);
      WorstOf(Results(data));
      var m := Merge(Flat(data), start);
      if m.Ok? {
        FinishLookup(m.value, Join(SortedSet(Refs(Flat(data))), ","), Join(Summaries(Desc(data), data), "\n"), "result");
      }
    }
  }

  /** The collapsed result is one of the group's results and, among several,
      the most severe. */
  lemma CollapsedResult(data: seq<Record>)
    requires Collapsed(data).Ok?
    ensures Lookup(Collapsed(data).value, "result").Some?
    ensures var rs := Results(data); var v := Lookup(Collapsed(data).value, "result").value;
      v in rs && (|rs| >= 2 ==> (Severity(v).Some? &&
        forall i :: 0 <= i < |rs| ==> Severity(rs[i]).Some? && Severity(rs[i]).value <= Severity(v).value))
  {
    CollapsedParts(data);
    var start: Record := [("check_name", Desc(data))];
    MergeResult(Flat(data), start);
    WorstOf(Results(data));
    FinishLookup(Merge(Flat(data), start).value, Join(SortedSet(Refs(Flat(data))), ","),
      Join(Summaries(Desc(data), data), "\n"), "result");
  }

  /** Every other field keeps the common value of the items that have it,
      and is `'multiple'` when two of them differ. */
  lemma CollapsedAgree(data: seq<Record>, k: string)
    requires Collapsed(data).Ok? && k != "result" && !Unmerged(k)
    ensures var vs := Values(Flat(data), {k});
      Lookup(Collapsed(data).value, k)
        == if vs == [] then None else Some(if forall i :: 0 <= i < |vs| ==> vs[i] == vs[0] then vs[0] else Multiple)
  {
    CollapsedParts(data);
    var start: Record := [("check_name", Desc(data))];
    MergeAgree(Flat(data), start, k);
    AgreeOf(Values(Flat(data), {k}));
    FinishLookup(Merge(Flat(data), start).value, Join(SortedSet(Refs(Flat(data))), ","),
      Join(Summaries(Desc(data), data), "\n"), k);
  }

  /** The summary lines, one per item (`SummariesAt`, `NoteLast`), go under
      `error` when the result is ERROR and under `actual_value` otherwise. */
  lemma CollapsedSummary(data: seq<Record>)
    requires Collapsed(data).Ok?
    ensures Lookup(Collapsed(data).value, "check_name").Some?
    ensures var r := Collapsed(data).value;
      var text := Join(Summaries(Lookup(r, "check_name").value, data), "\n");
      (Lookup(r, "result") == Some("ERROR") ==> Lookup(r, "error") == Some(text)) &&
      (Lookup(r, "result") != Some("ERROR") ==> Lookup(r, "actual_value") == Some(text))
  {
    CollapsedName(data);
    var start: Record := [("check_name", Desc(data))];
    var m := Merge(Flat(data), start).value;
    var refs := Join(SortedSet(Refs(Flat(data))), ",");
    var text := Join(Summaries(Desc(data), data), "\n");
    FinishLookup(m, refs, text, "error");
    FinishLookup(m, refs, text, "actual_value");
    FinishLookup(m, refs, text, "result");
  }

  /** The body of the loop over the fields of an item, for field `k`
      with value `v`. */
  method MergeField(desc: string, k: string, v: string, c: Record, refs: set<string>, l: Line)
    returns (r: Result<(Record, set<string>, Line), Error>)
    ensures r.Err? ==> MergeStep(k, v, c) == Err(KeyError) && r.error == KeyError
    ensures r.Ok? ==> MergeStep(k, v, c) == Ok(r.value.0)
    ensures r.Ok? ==> r.value.1 == refs + Pieces(k, v) && r.value.2 == NoteStep(desc, k, v, l)
  {
    var collapsed, pieces, line := c, refs, l;
    if k == "reference" {
      pieces := pieces + set p | p in Split(v, ',');
    } else if k == "result" {
      line := line.(actualDesc := v);
      var cur := Lookup(collapsed, k);
      if cur.None? {
        collapsed := Put(collapsed, k, v);
      } else {
        var n := Severity(v);
        if n.None? { return Err(KeyError); }
        var o := Severity(cur.value);
        if o.None? { return Err(KeyError); }
        if n.value > o.value {
          collapsed := Put(collapsed, k, v);
        }
      }
    } else if k == "check_name" {
      line := line.(shortDesc := ReplaceAll(v, desc, ""));
    } else if k == "actual_value" || k == "error" {
      var value := IndentValue(v);
      line := line.(actualValue := value);
    } else if Lookup(collapsed, k).None? {
      collapsed := Put(collapsed, k, v);
    } else if v != Lookup(collapsed, k).value {
      collapsed := Put(collapsed, k, Multiple);
    }
    return Ok((collapsed, pieces, line));
  }

  /** The loop over the fields of one item; `rest` stands for the fields of
      the items after it. */
  method MergeItem(desc: string, item: Record, ghost rest: seq<(string, string)>, c: Record, refs: set<string>)
    returns (r: Result<(Record, set<string>, Line), Error>)
    ensures r.Err? ==> Merge(item + rest, c) == Err(KeyError) && r.error == KeyError
    ensures r.Ok? ==> Merge(item + rest, c) == Merge(rest, r.value.0)
    ensures r.Ok? ==> refs + Refs(item + rest) == r.value.1 + Refs(rest)
    ensures r.Ok? ==> r.value.2 == Note(desc, item, Blank)
  {
    var collapsed, pieces, line := c, refs, Blank;
    for j := 0 to |item|
      invariant Merge(item + rest, c) == Merge(item[j..] + rest, collapsed)
      invariant refs + Refs(item + rest) == pieces + Refs(item[j..] + rest)
      invariant Note(desc, item, Blank) == Note(desc, item[j..], line)
    {
      ItemStep(desc, item, j, rest, collapsed, line);
      var step := MergeField(desc, item[j].0, item[j].1, collapsed, pieces, line);
      if step.Err? { return Err(KeyError); }
      collapsed, pieces, line := step.value.0, step.value.1, step.value.2;
    }
    assert item[|item|..] + rest == rest;
    return Ok((collapsed, pieces, line));
  }

  /** The fields from `item[j]` on: the first one, then the rest. */
  lemma ItemStep(desc: string, item: Record, j: nat, rest: seq<(string, string)>, c: Record, l: Line)
    requires j < |item|
    ensures var k, v := item[j].0, item[j].1;
      (MergeStep(k, v, c).Err? ==> Merge(item[j..] + rest, c) == Err(KeyError))
      && (MergeStep(k, v, c).Ok? ==> Merge(item[j..] + rest, c) == Merge(item[j + 1..] + rest, MergeStep(k, v, c).value))
      && Refs(item[j..] + rest) == Pieces(k, v) + Refs(item[j + 1..] + rest)
      && Note(desc, item[j..], l) == Note(desc, item[j + 1..], NoteStep(desc, k, v, l))
  {
    var full := item[j..] + rest;
    assert full[0] == item[j];
    assert full[1..] == item[j + 1..] + rest;
    assert item[j..][1..] == item[j + 1..];
  }

  /** The first loop of `collapse` and the cut at `' - '`. */
  method CommonName(a: string, b: string) returns (desc: string)
    ensures desc == CutName(CommonPrefix(a, b))
  {
    desc := "";
    var n := if |a| < |b| then |a| else |b|;
    var i := 0;
    while i < n
      invariant i <= n && desc == a[..i] && desc == b[..i]
    {
      if a[i] != b[i] { break; }
      assert a[..i + 1] == a[..i] + [a[i]] && b[..i + 1] == b[..i] + [b[i]];
      desc := desc + [a[i]];
      i := i + 1;
    }
    CommonPrefixIs(a, b, desc);
    if Contains(desc, Dash) {
      var parts := SplitOn(desc, Dash);
      desc := Join(parts[..|parts| - 1], Dash);
    }
  }

  lemma FlatStep(data: seq<Record>, x: nat)
    requires x < |data|
    ensures Flat(data[x..]) == data[x] + Flat(data[x + 1..])
  {
    assert data[x..][1..] == data[x + 1..];
  }

  lemma SummariesStep(desc: string, data: seq<Record>, x: nat)
    requires x < |data|
    ensures Summaries(desc, data[..x + 1]) == Summaries(desc, data[..x]) + [Summary(Note(desc, data[x], Blank))]
  {
    assert data[..x + 1][..x] == data[..x];
  }

  /** The loop of `collapse` over the items: the collapsed record, the
      references and the summary lines. */
  method MergeItems(desc: string, data: seq<Record>)
    returns (r: Result<(Record, set<string>, seq<string>), Error>)
    ensures r.Err? ==> Merge(Flat(data), [("check_name", desc)]) == Err(r.error)
    ensures r.Ok? ==> Merge(Flat(data), [("check_name", desc)]) == Ok(r.value.0)
    ensures r.Ok? ==> r.value.1 == Refs(Flat(data)) && r.value.2 == Summaries(desc, data)
  {
    var collapsed: Record := [("check_name", desc)];
    var refs: set<string> := {};
    var actuals: seq<string> := [];
    ghost var start := collapsed;
    for x := 0 to |data|
      invariant Merge(Flat(data), start) == Merge(Flat(data[x..]), collapsed)
      invariant Refs(Flat(data)) == refs + Refs(Flat(data[x..]))
      invariant actuals == Summaries(desc, data[..x])
    {
      FlatStep(data, x);
      var step := MergeItem(desc, data[x], Flat(data[x + 1..]), collapsed, refs);
      if step.Err? { return Err(step.error); }
      var line := Summary(step.value.2);
      SummariesStep(desc, data, x);
      collapsed, refs := step.value.0, step.value.1;
      actuals := actuals + [line];
    }
    assert data[|data|..] == [] && data[..|data|] == data;
    return Ok((collapsed, refs, actuals));
  }

  /** `collapse`, loop by loop. */
  method Collapse(data: seq<Record>) returns (r: Result<Record, Error>)
    ensures r == Collapsed(data)
  {
    if |data| == 0 { return Err(IndexError); }
    var first := Lookup(data[0], "check_name");
    if first.None? { return Err(KeyError); }
    if |data| == 1 { return Err(IndexError); }
    var second := Lookup(data[1], "check_name");
    if second.None? { return Err(KeyError); }
    var desc := CommonName(first.value, second.value);
    var merged := MergeItems(desc, data);
    if merged.Err? { return Err(merged.error); }
    var collapsed, refs, actuals := merged.value.0, merged.value.1, merged.value.2;
    collapsed := Put(collapsed, "reference", Join(SortedSet(refs), ","));
    var result := Lookup(collapsed, "result");
    if result.None? { return Err(KeyError); }
    if result.value == "ERROR" {
      collapsed := Put(collapsed, "error", Join(actuals, "\n"));
    } else {
      collapsed := Put(collapsed, "actual_value", Join(actuals, "\n"));
    }
    return Ok(collapsed);
  }

  // ---------------------------------------------------------------------
  // Rolling up

  /** The dictionary `controls`: each control id with its results. */
  type Groups = Dict<seq<Record>>

  /** What the second loop of `rollup` makes of one group: a single result
      as it is, several collapsed into one. */
  function Emitted(g: seq<Record>): (r: Result<Record, Error>)
    ensures r.Err? ==> r.error in {NoData, KeyError, IndexError}
  {
    if |g| == 1 then Ok(g[0]) else if |g| > 1 then Collapsed(g) else Err(NoData)
  }

  /** A group of two or more results fails only on a missing field. */
  lemma CollapsedPair(g: seq<Record>)
    requires |g| >= 2 && Collapsed(g).Err?
    ensures Collapsed(g).error == KeyError
  {
  }

  /** `rollup`. */
  function RolledUp(data: seq<Record>): Result<seq<Record>, Error> {
    match Group(IdOf, data, 0, [])
    case None => Err(NoControl)
    case Some(groups) => MapGroups(Emitted, groups, 0)
  }

  /** `value.get('control_id')`. */
  function IdOf(d: Record): Option<string> {
    Lookup(d, "control_id")
  }

  /** The groups the first loop of `rollup` builds: one per control id, in
      the order the ids first appear, each with the results that have it. */
  lemma RollupGroups(data: seq<Record>)
    requires forall i :: 0 <= i < |data| ==> IdOf(data[i]).Some?
    ensures Group(IdOf, data, 0, []).Some?
    ensures var g := Group(IdOf, data, 0, []).value; var ids := FirstSeen(Ids(IdOf, data));
      |g| == |ids| &&
      forall j :: 0 <= j < |g| ==> g[j] == (ids[j], Members(IdOf, data, ids[j])) && g[j].1 != []
  {
    GroupAll(IdOf, data);
    var g := Group(IdOf, data, 0, []).value;
    var ids := FirstSeen(Ids(IdOf, data));
    forall j | 0 <= j < |g|
      ensures g[j] == (ids[j], Members(IdOf, data, ids[j])) && g[j].1 != []
    {
      LookupAt(g, j);
      assert HoldsGroup(IdOf, data, g, g[j].0);
      MembersHave(IdOf, data, g[j].0);
    }
  }

  /** A result with no control id is what makes `rollup` stop with "No
      control found": it stops so exactly when there is one. */
  lemma RollupNoControl(data: seq<Record>)
    ensures RolledUp(data) == Err(NoControl) <==> exists i :: 0 <= i < |data| && IdOf(data[i]).None?
  {
    GroupAll(IdOf, data);
    if Group(IdOf, data, 0, []).Some? {
      var g := Group(IdOf, data, 0, []).value;
      MapGroupsAll(Emitted, g, 0);
      if MapGroups(Emitted, g, 0).Err? {
        var k :| 0 <= k < |g| && Emitted(g[k].1) == Err(MapGroups(Emitted, g, 0).error);
      }
    }
  }

  /** When every result has a control id, `rollup` fails exactly when the
      emit of one group does, and then only on a missing field: "No data
      available" cannot happen. */
  lemma RollupFails(data: seq<Record>)
    requires forall i :: 0 <= i < |data| ==> IdOf(data[i]).Some?
    ensures var ids := FirstSeen(Ids(IdOf, data));
      RolledUp(data).Ok? <==> forall j :: 0 <= j < |ids| ==> Emitted(Members(IdOf, data, ids[j])).Ok?
    ensures RolledUp(data).Err? ==> RolledUp(data).error == KeyError
  {
    RollupGroups(data);
    var g := Group(IdOf, data, 0, []).value;
    assert RolledUp(data) == MapGroups(Emitted, g, 0);
    MapGroupsAll(Emitted, g, 0);
    if MapGroups(Emitted, g, 0).Err? {
      var k :| 0 <= k < |g| && Emitted(g[k].1) == Err(MapGroups(Emitted, g, 0).error);
      if |g[k].1| >= 2 {
        CollapsedPair(g[k].1);
      }
    }
  }

  /** When every result has a control id and `rollup` succeeds, it yields
      one record per control id, in the order the ids first appear: the
      result itself for an id with one result, the collapse of its results
      otherwise. */
  lemma RollupShape(data: seq<Record>)
    requires forall i :: 0 <= i < |data| ==> IdOf(data[i]).Some?
    requires RolledUp(data).Ok?
    ensures var ids := FirstSeen(Ids(IdOf, data)); var out := RolledUp(data).value;
      |out| == |ids| && forall j :: 0 <= j < |ids| ==>
        var m := Members(IdOf, data, ids[j]);
        m != [] && if |m| == 1 then out[j] == m[0] else Collapsed(m) == Ok(out[j])
  {
    RollupGroups(data);
    var g := Group(IdOf, data, 0, []).value;
    var ids := FirstSeen(Ids(IdOf, data));
    assert RolledUp(data) == MapGroups(Emitted, g, 0);
    var out := RolledUp(data).value;
    MapGroupsAll(Emitted, g, 0);
    forall j | 0 <= j < |ids|
      ensures var m := Members(IdOf, data, ids[j]);
        m != [] && if |m| == 1 then out[j] == m[0] else Collapsed(m) == Ok(out[j])
    {
      MapGroupsAt(Emitted, g, j);
      EmittedIs(g[j].1, out[j]);
    }
  }

  /** What an emitted group holds. */
  lemma EmittedIs(m: seq<Record>, x: Record)
    requires Emitted(m) == Ok(x)
    ensures m != [] && if |m| == 1 then x == m[0] else Collapsed(m) == Ok(x)
  {
  }

  /** The body of the second loop of `rollup`, for one group. */
  method EmitGroup(g: seq<Record>) returns (r: Result<Record, Error>)
    ensures r == Emitted(g)
  {
    if |g| == 1 {
      r := Ok(g[0]);
    } else if |g| > 1 {
      r := Collapse(g);
    } else {
      r := Err(NoData);
    }
  }

  /** The first loop of `rollup`: the results by control id, or the error
      for a result without one. */
  method GroupControls(data: seq<Record>) returns (r: Result<Groups, Error>)
    ensures r == match Group(IdOf, data, 0, []) case None => Err(NoControl) case Some(g) => Ok(g)
  {
    var controls: Groups := [];
    for i := 0 to |data|
      invariant Group(IdOf, data, 0, []) == Group(IdOf, data, i, controls)
    {
      var control := Lookup(data[i], "control_id");
      if control.None? {
        return Err(NoControl);
      }
      var c := control.value;
      GroupTurn(IdOf, data, i, controls, c);
      ghost var next := Put(controls, c, Members0(controls, c) + [data[i]]);
      ghost var before := controls;
      if c !in Keys(controls) {
        controls := Put(controls, c, []);
        PutLookup(before, c, [], c);
        assert Members0(before, c) + [data[i]] == [data[i]];
        PutPut(before, c, [], [data[i]]);
      }
      var members := Lookup(controls, c).value;
      controls := Put(controls, c, members + [data[i]]);
      assert controls == next;
    }
    return Ok(controls);
  }

  /** `rollup`, with its two loops. */
  method Rollup(data: seq<Record>) returns (r: Result<seq<Record>, Error>)
    ensures r == RolledUp(data)
  {
    var grouped := GroupControls(data);
    if grouped.Err? {
      return Err(grouped.error);
    }
    var controls := grouped.value;
    assert RolledUp(data) == MapGroups(Emitted, controls, 0);
    var rolled: seq<Record> := [];
    PrependNil(MapGroups(Emitted, controls, 0));
    for j := 0 to |controls|
      invariant MapGroups(Emitted, controls, 0) == Prepend(rolled, MapGroups(Emitted, controls, j))
    {
      var one := EmitGroup(controls[j].1);
      MapGroupsStep(Emitted, controls, j);
      if one.Err? {
        return Err(one.error);
      }
      PrependPrepend(rolled, [one.value], MapGroups(Emitted, controls, j + 1));
      rolled := rolled + [one.value];
    }
    PrependNil<Record, Error>(Ok(rolled));
    return Ok(rolled);
  }
}
