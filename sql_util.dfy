/** The expect-value language of the database audits: the legacy type names,
    the classifier of one literal, the scanner that turns a `sql_expect` value
    into slots, and the collapse of one slot into a type and an expect text. */
module SqlUtil {
  import opened Wrappers
  import opened Text

  /** The types `type_of` can assign to a literal. */
  datatype Kind = NULL | STRING | INTEGER | REGEX | RANGE | UNKNOWN

  function KindName(k: Kind): (r: string)
    ensures |r| >= 4
  {
    match k
    case NULL => "NULL"
    case STRING => "STRING"
    case INTEGER => "INTEGER"
    case REGEX => "REGEX"
    case RANGE => "RANGE"
    case UNKNOWN => "UNKNOWN"
  }

  /** A `(type, literal)` pair. */
  datatype Leaf = Leaf(kind: Kind, literal: string)

  /** One comma-separated position of an expect value: a single leaf, or the
      `('COMPLEX', [leaves])` alternation. */
  datatype Slot = Single(leaf: Leaf) | Complex(members: seq<Leaf>)

  /** The exceptions the functions raise. */
  datatype Error =
    | UnknownType(name: string)   // KeyError from the type table
    | NotFound(stop: char)        // ValueError from `str.index`
    | IndexError
    | UnexpectedChar(c: char)     // the scanner met a character it cannot start a token with
    | ComplexRange                // a range inside an alternation

  /** The legacy type names and what they become. */
  const TypeTable: map<string, string> :=
    map["POLICY_INTEGER" := "INTEGER", "POLICY_VARCHAR" := "STRING"]

  /** The table applied to every name, failing on the first unknown one. */
  function MapTypes(names: seq<string>): (r: Result<seq<string>, Error>)
    ensures r.Ok? ==> |r.value| == |names|
    ensures r.Ok? ==> forall k :: 0 <= k < |names| ==> names[k] in TypeTable && r.value[k] == TypeTable[names[k]]
    ensures r.Err? ==>
      (exists k :: 0 <= k < |names| && names[k] !in TypeTable && r.error == UnknownType(names[k])
        && forall j :: 0 <= j < k ==> names[j] in TypeTable)
  {
    if names == [] then Ok([])
    else if names[0] !in TypeTable then Err(UnknownType(names[0]))
    else
      match MapTypes(names[1..])
      case Err(e) =>
        assert forall j :: 0 < j < |names| ==> names[j] == names[1..][j - 1];
        Err(e)
      case Ok(rest) => Ok([TypeTable[names[0]]] + rest)
  }

  /** `parse_types`: the comma-separated parts, trimmed, each mapped. */
  function ParseTypes(target: string): (r: Result<seq<string>, Error>)
    ensures r.Ok? ==> |r.value| == |Split(target, ',')| == Count(target, ',') + 1
    ensures r.Ok? ==> forall k :: 0 <= k < |r.value| ==>
      Strip(Split(target, ',')[k]) in TypeTable && r.value[k] == TypeTable[Strip(Split(target, ',')[k])]
    ensures r.Err? <==> exists k :: 0 <= k < |Split(target, ',')| && Strip(Split(target, ',')[k]) !in TypeTable
  {
    SplitLength(target, ',');
    MapTypes(StripAll(Split(target, ',')))
  }

  /** The text a final `$` may stop at: the whole string, or the string
      without one trailing newline. */
  function DropFinalNewline(t: string): (r: string)
  {
    if t != [] && t[|t| - 1] == '\n' then t[..|t| - 1] else t
  }

  /** `^[0-9]+$` */
  predicate IntegerRe(t: string) {
    var d := DropFinalNewline(t);
    d != [] && AllDigits(d)
  }

  /** `^regex *: *["']` */
  predicate RegexRe(t: string) {
    StartsWith(t, "regex")
    && var u := LStripChars(t[5..], {' '});
    u != [] && u[0] == ':'
    && var w := LStripChars(u[1..], {' '});
    w != [] && (w[0] == '"' || w[0] == '\'')
  }

  /** `@[^ ]*@` */
  predicate VariableBound(x: string) {
    |x| >= 2 && x[0] == '@' && x[|x| - 1] == '@' && forall k :: 0 <= k < |x| ==> x[k] != ' '
  }

  predicate LowBound(x: string) { x == "MIN" || VariableBound(x) || (x != [] && AllDigits(x)) }

  predicate HighBound(x: string) { x == "MAX" || VariableBound(x) || (x != [] && AllDigits(x)) }

  /** The `..` of a range sits at `k` or later, with a lower bound before
      it and an upper bound after it up to the closing bracket. */
  predicate RangeSplitFrom(u: string, k: nat)
    requires 1 <= k
    decreases |u| - k
  {
    k + 3 <= |u|
    && ((u[k..k + 2] == ".." && LowBound(u[1..k]) && HighBound(u[k + 2..|u| - 1]))
        || RangeSplitFrom(u, k + 1))
  }

  /** `\[(lo)\.\.(hi)\]` over the whole of `u`, for some place of the `..`. */
  predicate RangeBody(u: string) {
    |u| >= 2 && u[0] == '[' && u[|u| - 1] == ']' && RangeSplitFrom(u, 1)
  }

  /** `^\[(MIN|@[^ ]*@|[0-9]+)\.\.(MAX|@[^ ]*@|[0-9]+)\]$` */
  predicate RangeRe(t: string) {
    RangeBody(t) || RangeBody(DropFinalNewline(t))
  }

  /** `type_of`: the first rule that applies decides. */
  function TypeOf(t: string): Kind
  {
    if t == "NULL" then NULL
    else if t == "NO_ROWS_RETURNED" then STRING
    else if |t| > 1 && (t[0] == '"' || t[0] == '\'') && t[0] == t[|t| - 1] then STRING
    else if |t| > 1 && t[0] == '@' && t[0] == t[|t| - 1] then INTEGER
    else if IntegerRe(t) then INTEGER
    else if RegexRe(t) then REGEX
    else if RangeRe(t) then RANGE
    else UNKNOWN
  }

  // ---------------------------------------------------------------------
  // Scanning

  /** `e` closes a delimited token: it holds `stop` and is not escaped by a
      backslash just before it. */
  predicate Closes(t: string, stop: char, e: int) {
    1 <= e < |t| && t[e] == stop && t[e - 1] != '\\'
  }

  /** The first closing position at or after `from`. */
  function CloseAt(t: string, stop: char, from: nat): (r: Option<nat>)
    ensures r.Some? ==> from <= r.value && Closes(t, stop, r.value)
    ensures r.Some? ==> forall e :: from <= e < r.value ==> !Closes(t, stop, e)
    ensures r.None? ==> forall e :: from <= e ==> !Closes(t, stop, e)
    decreases |t| - from
  {
    if from >= |t| then None
    else if Closes(t, stop, from) then Some(from)
    else CloseAt(t, stop, from + 1)
  }

  /** `_parse_string`: the token from `i` up to and including the first
      unescaped `stop` after `i`, and that position. */
  method ParseString(t: string, i: nat, stop: char) returns (r: Result<(string, nat), Error>)
    requires i < |t|
    ensures r.Ok? ==> i < r.value.1 && Closes(t, stop, r.value.1)
    ensures r.Ok? ==> forall k :: i < k < r.value.1 ==> !Closes(t, stop, k)
    ensures r.Ok? ==> r.value.0 == t[i..r.value.1 + 1]
    ensures r.Err? ==> r.error == NotFound(stop) && forall k :: i < k ==> !Closes(t, stop, k)
    ensures r.Ok? ==> CloseAt(t, stop, i + 1) == Some(r.value.1)
    ensures r.Err? ==> CloseAt(t, stop, i + 1).None?
  {
    var f := FindFrom(t, stop, i + 1);
    if f.None? {
      return Err(NotFound(stop));
    }
    var e := f.value;
    while t[e - 1] == '\\'
      invariant i < e < |t| && t[e] == stop
      invariant forall k :: i < k < e ==> !Closes(t, stop, k)
      decreases |t| - e
    {
      f := FindFrom(t, stop, e + 1);
      if f.None? {
        return Err(NotFound(stop));
      }
      e := f.value;
    }
    return Ok((t[i..e + 1], e));
  }

  /** The last position of the run of digits that starts at `i`. */
  function DigitRunEnd(t: string, i: nat): (e: nat)
    requires i < |t| && IsDigit(t[i])
    ensures i <= e < |t| && AllDigits(t[i..e + 1])
    ensures e + 1 == |t| || !IsDigit(t[e + 1])
    decreases |t| - i
  {
    if i + 1 < |t| && IsDigit(t[i + 1]) then
      var e := DigitRunEnd(t, i + 1);
      assert t[i..e + 1] == [t[i]] + t[i + 1..e + 1];
      e
    else i
  }

  predicate IsQuote(c: char) { c == '"' || c == '\'' }

  /** The first quote character at or after `from`. */
  function QuoteFrom(t: string, from: nat): (r: Option<nat>)
    ensures r.Some? ==> from <= r.value < |t| && IsQuote(t[r.value])
    ensures r.Some? ==> forall k :: from <= k < r.value ==> !IsQuote(t[k])
    ensures r.None? ==> forall k :: from <= k < |t| ==> !IsQuote(t[k])
    decreases |t| - from
  {
    if from >= |t| then None
    else if IsQuote(t[from]) then Some(from)
    else QuoteFrom(t, from + 1)
  }

  /** What the scanner yields: atoms (literals) and the commas between them. */
  datatype Token = Atom(lit: string) | Comma

  /** What one round of the scanning loop found, and where the next round
      starts. */
  datatype Step = Step(token: Option<Token>, next: nat)

  /** One round of the scanning loop of `parse_expect` at position `i`: a
      delimited literal (quotes, brackets or `@`) up to its unescaped closing
      character, a run of digits, `regex` followed by the next quoted
      literal, `NULL` or `NO_ROWS_RETURNED`; a space or `|` is skipped, a
      comma is reported, and anything else is refused. */
  function TokenAt(t: string, i: nat): (r: Result<Step, Error>)
    requires i < |t|
    ensures r.Ok? ==> i < r.value.next <= |t|
  {
    var c := t[i];
    if IsQuote(c) || c == '[' || c == '@' then
      var stop := if c == '[' then ']' else c;
      match CloseAt(t, stop, i + 1)
      case None => Err(NotFound(stop))
      case Some(e) => Ok(Step(Some(Atom(t[i..e + 1])), e + 1))
    else if IsDigit(c) then
      var e := DigitRunEnd(t, i);
      Ok(Step(Some(Atom(t[i..e + 1])), e + 1))
    else if c == 'r' && At(t, i, "regex") then
      match QuoteFrom(t, i + 5)
      case None => Err(IndexError)
      case Some(q) =>
        match CloseAt(t, t[q], q + 1)
        case None => Err(NotFound(t[q]))
        case Some(e) => Ok(Step(Some(Atom("regex:" + t[q..e + 1])), e + 1))
    else if c == 'N' && At(t, i, "NULL") then
      Ok(Step(Some(Atom("NULL")), i + 4))
    else if c == 'N' && At(t, i, "NO_ROWS_RETURNED") then
      Ok(Step(Some(Atom("NO_ROWS_RETURNED")), i + 16))
    else if c == ' ' || c == '|' then Ok(Step(None, i + 1))
    else if c == ',' then Ok(Step(Some(Comma), i + 1))
    else Err(UnexpectedChar(c))
  }

  /** The tokens scanned from a position on, and the exception that stopped
      the scan, if any. */
  datatype Scan = Scan(tokens: seq<Token>, failure: Option<Error>)

  function Prepend(tk: Token, sc: Scan): Scan {
    Scan([tk] + sc.tokens, sc.failure)
  }

  /** The whole scan of `parse_expect` from position `i`. */
  function ScanFrom(t: string, i: nat): Scan
    decreases |t| - i
  {
    if i >= |t| then Scan([], None)
    else
      match TokenAt(t, i)
      case Err(e) => Scan([], Some(e))
      case Ok(Step(None, n)) => ScanFrom(t, n)
      case Ok(Step(Some(tk), n)) => Prepend(tk, ScanFrom(t, n))
  }

  // ---------------------------------------------------------------------
  // Grouping

  /** Add `l` to the last slot. */
  function Merge(s: Slot, l: Leaf): (r: Slot)
    ensures r.Complex?
  {
    match s
    case Single(x) => Complex([x, l])
    case Complex(ms) => Complex(ms + [l])
  }

  /** Where one scanned leaf goes: a new slot when `idx` has reached the
      number of slots, otherwise into the last slot. */
  function Place(slots: seq<Slot>, idx: nat, l: Leaf): (r: Result<seq<Slot>, Error>)
  {
    if idx == |slots| then Ok(slots + [Single(l)])
    else if slots == [] then Err(IndexError)
    else Ok(slots[..|slots| - 1] + [Merge(slots[|slots| - 1], l)])
  }

  function LeafOf(v: string): Leaf { Leaf(TypeOf(v), v) }

  /** The grouping of a token stream, `idx` counting the commas seen and
      `mk` making each atom a leaf. */
  function GroupBy(mk: string -> Leaf, toks: seq<Token>, slots: seq<Slot>, idx: nat): Result<seq<Slot>, Error>
    decreases |toks|
  {
    if toks == [] then Ok(slots)
    else
      match toks[0]
      case Comma => GroupBy(mk, toks[1..], slots, idx + 1)
      case Atom(v) =>
        match Place(slots, idx, mk(v))
        case Err(e) => Err(e)
        case Ok(s) => GroupBy(mk, toks[1..], s, idx)
  }

  /** The grouping of `parse_expect`: each atom becomes `(type_of(v), v)`. */
  function Group(toks: seq<Token>, slots: seq<Slot>, idx: nat): Result<seq<Slot>, Error> {
    GroupBy(LeafOf, toks, slots, idx)
  }

  /** The outcome of a scan grouped onto `slots`: the grouping's own error
      comes first, since it happens at a token before the scan stopped. */
  function Finish(sc: Scan, slots: seq<Slot>, idx: nat): Result<seq<Slot>, Error>
  {
    match Group(sc.tokens, slots, idx)
    case Err(e) => Err(e)
    case Ok(r) => if sc.failure.Some? then Err(sc.failure.value) else Ok(r)
  }

  /** What `parse_expect` returns or raises. */
  function ParseSpec(t: string): Result<seq<Slot>, Error>
  {
    Finish(ScanFrom(t, 0), [], 0)
  }

  /** Grouping a scan that begins with an atom places that atom first. */
  lemma FinishAtom(sc: Scan, slots: seq<Slot>, idx: nat, v: string)
    ensures Place(slots, idx, LeafOf(v)).Err? ==>
      Finish(Prepend(Atom(v), sc), slots, idx) == Err(Place(slots, idx, LeafOf(v)).error)
    ensures Place(slots, idx, LeafOf(v)).Ok? ==>
      Finish(Prepend(Atom(v), sc), slots, idx) == Finish(sc, Place(slots, idx, LeafOf(v)).value, idx)
  {
    assert ([Atom(v)] + sc.tokens)[1..] == sc.tokens;
  }

  /** Grouping a scan that begins with a comma counts it. */
  lemma FinishComma(sc: Scan, slots: seq<Slot>, idx: nat)
    ensures Finish(Prepend(Comma, sc), slots, idx) == Finish(sc, slots, idx + 1)
  {
    assert ([Comma] + sc.tokens)[1..] == sc.tokens;
  }

  /** The inner loop over a run of digits: the position of its last digit. */
  method ScanDigits(t: string, i: nat) returns (e: nat)
    requires i < |t| && IsDigit(t[i])
    ensures e == DigitRunEnd(t, i)
  {
    e := i;
    while e + 1 < |t| && IsDigit(t[e + 1])
      invariant i <= e < |t| && IsDigit(t[e])
      invariant DigitRunEnd(t, i) == DigitRunEnd(t, e)
      decreases |t| - e
    {
      e := e + 1;
    }
  }

  /** The inner loop that moves past `regex` to the opening quote; running
      off the end is the IndexError of indexing past the string. */
  method SkipToQuote(t: string, from: nat) returns (r: Result<nat, Error>)
    ensures r.Ok? ==> QuoteFrom(t, from) == Some(r.value)
    ensures r.Err? ==> QuoteFrom(t, from).None? && r.error == IndexError
  {
    var j := from;
    while true
      invariant from <= j
      invariant QuoteFrom(t, from) == QuoteFrom(t, j)
      decreases |t| - j
    {
      if j >= |t| {
        return Err(IndexError);
      }
      if IsQuote(t[j]) {
        return Ok(j);
      }
      j := j + 1;
    }
  }

  /** The body of the scanning loop of `parse_expect`: the token that begins
      at `i`, if any, and the position after it. */
  method ScanToken(t: string, i: nat) returns (r: Result<Step, Error>)
    requires i < |t|
    ensures r == TokenAt(t, i)
  {
    var c := t[i];
    if IsQuote(c) || c == '[' || c == '@' {
      var stop := if c == '[' then ']' else c;
      var p := ParseString(t, i, stop);
      if p.Err? {
        return Err(p.error);
      }
      return Ok(Step(Some(Atom(p.value.0)), p.value.1 + 1));
    } else if IsDigit(c) {
      var e := ScanDigits(t, i);
      return Ok(Step(Some(Atom(t[i..e + 1])), e + 1));
    } else if c == 'r' && At(t, i, "regex") {
      var q := SkipToQuote(t, i + 5);
      if q.Err? {
        return Err(q.error);
      }
      var j := q.value;
      var p := ParseString(t, j, t[j]);
      if p.Err? {
        return Err(p.error);
      }
      return Ok(Step(Some(Atom("regex:" + p.value.0)), p.value.1 + 1));
    } else if c == 'N' && At(t, i, "NULL") {
      return Ok(Step(Some(Atom("NULL")), i + 4));
    } else if c == 'N' && At(t, i, "NO_ROWS_RETURNED") {
      return Ok(Step(Some(Atom("NO_ROWS_RETURNED")), i + 16));
    } else if c == ' ' || c == '|' {
      return Ok(Step(None, i + 1));
    } else if c == ',' {
      return Ok(Step(Some(Comma), i + 1));
    } else {
      return Err(UnexpectedChar(c));
    }
  }

  /** `parse_expect`: scan token by token, counting commas in `idx`, and
      place each atom in a new slot or in the last one. */
  method ParseExpect(t: string) returns (r: Result<seq<Slot>, Error>)
    ensures r == ParseSpec(t)
  {
    var result: seq<Slot> := [];
    var idx: nat := 0;
    var i: nat := 0;
    while i < |t|
      invariant i <= |t|
      invariant Finish(ScanFrom(t, i), result, idx) == ParseSpec(t)
      decreases |t| - i
    {
      var step := ScanToken(t, i);
      if step.Err? {
        return Err(step.error);
      }
      var next := step.value.next;
      match step.value.token {
        case None =>
        case Some(Comma) =>
          FinishComma(ScanFrom(t, next), result, idx);
          idx := idx + 1;
        case Some(Atom(v)) =>
          FinishAtom(ScanFrom(t, next), result, idx, v);
          var l := LeafOf(v);
          if idx == |result| {
            result := result + [Single(l)];
          } else {
            if |result| == 0 {
              return Err(IndexError);
            }
            result := result[..|result| - 1] + [Merge(result[|result| - 1], l)];
          }
      }
      i := next;
    }
    return Ok(result);
  }

  // ---------------------------------------------------------------------
  // What the grouping produces

  /** A leaf as the scanner builds it: classified by `type_of`, literal
      never empty. */
  predicate LeafOk(l: Leaf) { l.kind == TypeOf(l.literal) && l.literal != "" }

  /** A slot as the grouping builds it: an alternation has at least two
      members. */
  predicate SlotOk(s: Slot) {
    match s
    case Single(l) => LeafOk(l)
    case Complex(ms) => |ms| >= 2 && forall j :: 0 <= j < |ms| ==> LeafOk(ms[j])
  }

  predicate SlotsOk(slots: seq<Slot>) { forall k :: 0 <= k < |slots| ==> SlotOk(slots[k]) }

  lemma PlaceKeepsSlotsOk(slots: seq<Slot>, idx: nat, l: Leaf)
    requires SlotsOk(slots) && LeafOk(l)
    ensures Place(slots, idx, l).Ok? ==> SlotsOk(Place(slots, idx, l).value)
  {
    if idx != |slots| && slots != [] {
      var last := slots[|slots| - 1];
      assert SlotOk(last);
      assert SlotOk(Merge(last, l));
      var r := slots[..|slots| - 1] + [Merge(last, l)];
      assert forall k :: 0 <= k < |slots| - 1 ==> r[k] == slots[k];
    }
  }

  lemma {:induction false} GroupKeepsSlotsOk(toks: seq<Token>, slots: seq<Slot>, idx: nat)
    requires SlotsOk(slots)
    requires forall k :: 0 <= k < |toks| && toks[k].Atom? ==> toks[k].lit != ""
    ensures Group(toks, slots, idx).Ok? ==> SlotsOk(Group(toks, slots, idx).value)
    decreases |toks|
  {
    if toks != [] {
      match toks[0]
      case Comma => GroupKeepsSlotsOk(toks[1..], slots, idx + 1);
      case Atom(v) =>
        PlaceKeepsSlotsOk(slots, idx, LeafOf(v));
        if Place(slots, idx, LeafOf(v)).Ok? {
          GroupKeepsSlotsOk(toks[1..], Place(slots, idx, LeafOf(v)).value, idx);
        }
    }
  }

  /** Every atom the scanner yields is a non-empty literal. */
  lemma {:induction false} ScanAtomsNonEmpty(t: string, i: nat)
    ensures forall k :: 0 <= k < |ScanFrom(t, i).tokens| && ScanFrom(t, i).tokens[k].Atom? ==>
      ScanFrom(t, i).tokens[k].lit != ""
    decreases |t| - i
  {
    if i < |t| && TokenAt(t, i).Ok? {
      ScanAtomsNonEmpty(t, TokenAt(t, i).value.next);
    }
  }

  /** Every leaf of a parsed expect value is `(type_of(lit), lit)`, and every
      alternation has at least two members. */
  lemma ParsedSlotsOk(t: string)
    ensures ParseSpec(t).Ok? ==> SlotsOk(ParseSpec(t).value)
  {
    ScanAtomsNonEmpty(t, 0);
    GroupKeepsSlotsOk(ScanFrom(t, 0).tokens, [], 0);
  }

  // The grouping against a reference: token streams made of runs of atoms
  // separated by single commas.

  function Atoms(g: seq<string>): (r: seq<Token>)
    ensures |r| == |g|
  {
    if g == [] then [] else [Atom(g[0])] + Atoms(g[1..])
  }

  /** The tokens of the groups `gs`, one comma between consecutive groups. */
  function Render(gs: seq<seq<string>>): seq<Token>
  {
    if gs == [] then []
    else if |gs| == 1 then Atoms(gs[0])
    else Atoms(gs[0]) + [Comma] + Render(gs[1..])
  }

  function Leaves(mk: string -> Leaf, g: seq<string>): (r: seq<Leaf>)
    ensures |r| == |g| && forall k :: 0 <= k < |g| ==> r[k] == mk(g[k])
  {
    if g == [] then [] else [mk(g[0])] + Leaves(mk, g[1..])
  }

  /** The slot a group of atoms should make: one leaf alone, an alternation
      of all of them otherwise. */
  function SlotOf(mk: string -> Leaf, g: seq<string>): Slot
    requires g != []
  {
    if |g| == 1 then Single(mk(g[0])) else Complex(Leaves(mk, g))
  }

  function SlotsOf(mk: string -> Leaf, gs: seq<seq<string>>): (r: seq<Slot>)
    requires forall k :: 0 <= k < |gs| ==> gs[k] != []
    ensures |r| == |gs|
  {
    if gs == [] then [] else [SlotOf(mk, gs[0])] + SlotsOf(mk, gs[1..])
  }

  function MergeAll(s: Slot, ls: seq<Leaf>): Slot
    decreases |ls|
  {
    if ls == [] then s else MergeAll(Merge(s, ls[0]), ls[1..])
  }

  lemma {:induction false} MergeAllComplex(ms: seq<Leaf>, ls: seq<Leaf>)
    ensures MergeAll(Complex(ms), ls) == Complex(ms + ls)
    decreases |ls|
  {
    if ls != [] {
      MergeAllComplex(ms + [ls[0]], ls[1..]);
      assert ms + [ls[0]] + ls[1..] == ms + ls;
    }
  }

  /** Atoms after the first of a run merge into the last slot. */
  lemma {:induction false} MergeRun(mk: string -> Leaf, g: seq<string>, rest: seq<Token>, slots: seq<Slot>, idx: nat)
    requires slots != [] && idx == |slots| - 1
    ensures GroupBy(mk, Atoms(g) + rest, slots, idx)
      == GroupBy(mk, rest, slots[..|slots| - 1] + [MergeAll(slots[|slots| - 1], Leaves(mk, g))], idx)
  {
    if g == [] {
      assert Atoms(g) + rest == rest;
      assert slots[..|slots| - 1] + [slots[|slots| - 1]] == slots;
    } else {
      var s2 := slots[..|slots| - 1] + [Merge(slots[|slots| - 1], mk(g[0]))];
      assert (Atoms(g) + rest)[0] == Atom(g[0]);
      assert (Atoms(g) + rest)[1..] == Atoms(g[1..]) + rest;
      assert Place(slots, idx, mk(g[0])) == Ok(s2);
      MergeRun(mk, g[1..], rest, s2, idx);
      assert s2[..|s2| - 1] == slots[..|slots| - 1];
      assert Leaves(mk, g)[1..] == Leaves(mk, g[1..]);
    }
  }

  /** An atom at `idx == |slots|` opens a new slot. */
  lemma StartFirst(mk: string -> Leaf, v: string, toks: seq<Token>, slots: seq<Slot>)
    ensures GroupBy(mk, [Atom(v)] + toks, slots, |slots|) == GroupBy(mk, toks, slots + [Single(mk(v))], |slots|)
  {
    assert ([Atom(v)] + toks)[1..] == toks;
  }

  /** The leaves after the first merge into the slot the first opened. */
  lemma MergeAllFirst(ls: seq<Leaf>)
    requires ls != []
    ensures MergeAll(Single(ls[0]), ls[1..]) == if |ls| == 1 then Single(ls[0]) else Complex(ls)
  {
    if |ls| > 1 {
      var tail := ls[1..];
      assert MergeAll(Single(ls[0]), tail) == MergeAll(Complex([ls[0], tail[0]]), tail[1..]);
      MergeAllComplex([ls[0], tail[0]], tail[1..]);
      assert [ls[0], tail[0]] + tail[1..] == ls;
    }
  }

  /** A run of atoms starting a new slot makes exactly `SlotOf` of it. */
  lemma StartRun(mk: string -> Leaf, g: seq<string>, rest: seq<Token>, slots: seq<Slot>)
    requires g != []
    ensures GroupBy(mk, Atoms(g) + rest, slots, |slots|) == GroupBy(mk, rest, slots + [SlotOf(mk, g)], |slots|)
  {
    var s1 := slots + [Single(mk(g[0]))];
    assert Atoms(g) + rest == [Atom(g[0])] + (Atoms(g[1..]) + rest);
    StartFirst(mk, g[0], Atoms(g[1..]) + rest, slots);
    MergeRun(mk, g[1..], rest, s1, |slots|);
    assert s1[..|s1| - 1] == slots;
    MergeAllFirst(Leaves(mk, g));
    assert Leaves(mk, g)[1..] == Leaves(mk, g[1..]);
  }

  /** A comma only counts. */
  lemma CommaFirst(mk: string -> Leaf, toks: seq<Token>, slots: seq<Slot>, idx: nat)
    ensures GroupBy(mk, [Comma] + toks, slots, idx) == GroupBy(mk, toks, slots, idx + 1)
  {
    assert ([Comma] + toks)[1..] == toks;
  }

  /** One run alone makes one slot. */
  lemma RenderedOne(mk: string -> Leaf, gs: seq<seq<string>>, slots: seq<Slot>)
    requires |gs| == 1 && gs[0] != []
    ensures GroupBy(mk, Render(gs), slots, |slots|) == Ok(slots + SlotsOf(mk, gs))
  {
    StartRun(mk, gs[0], [], slots);
    assert Atoms(gs[0]) + [] == Atoms(gs[0]);
    assert SlotsOf(mk, gs) == [SlotOf(mk, gs[0])];
  }

  lemma RenderCons(gs: seq<seq<string>>)
    requires |gs| > 1
    ensures Render(gs) == Atoms(gs[0]) + ([Comma] + Render(gs[1..]))
  {
  }

  /** A run and a comma before the other runs make one slot before theirs. */
  lemma RenderedCons(mk: string -> Leaf, gs: seq<seq<string>>, slots: seq<Slot>)
    requires |gs| > 1 && forall k :: 0 <= k < |gs| ==> gs[k] != []
    requires var s1 := slots + [SlotOf(mk, gs[0])];
      GroupBy(mk, Render(gs[1..]), s1, |s1|) == Ok(s1 + SlotsOf(mk, gs[1..]))
    ensures GroupBy(mk, Render(gs), slots, |slots|) == Ok(slots + SlotsOf(mk, gs))
  {
    var s1 := slots + [SlotOf(mk, gs[0])];
    var tail := Render(gs[1..]);
    RenderCons(gs);
    StartRun(mk, gs[0], [Comma] + tail, slots);
    CommaFirst(mk, tail, s1, |slots|);
    assert SlotsOf(mk, gs) == [SlotOf(mk, gs[0])] + SlotsOf(mk, gs[1..]);
    assert s1 + SlotsOf(mk, gs[1..]) == slots + SlotsOf(mk, gs);
  }

  lemma {:induction false} GroupRenderedFrom(mk: string -> Leaf, gs: seq<seq<string>>, slots: seq<Slot>)
    requires forall k :: 0 <= k < |gs| ==> gs[k] != []
    ensures GroupBy(mk, Render(gs), slots, |slots|) == Ok(slots + SlotsOf(mk, gs))
    decreases |gs|
  {
    if gs == [] {
      assert slots + SlotsOf(mk, gs) == slots;
    } else if |gs| == 1 {
      RenderedOne(mk, gs, slots);
    } else {
      GroupRenderedFrom(mk, gs[1..], slots + [SlotOf(mk, gs[0])]);
      RenderedCons(mk, gs, slots);
    }
  }

  /** The grouping of `parse_expect`, against a reference: when the values
      are runs of atoms separated by single commas, each run becomes one
      slot, in order; a run of one is a plain leaf, a longer run an
      alternation of all its atoms in scan order. */
  lemma GroupRendered(gs: seq<seq<string>>)
    requires forall k :: 0 <= k < |gs| ==> gs[k] != []
    ensures Group(Render(gs), [], 0) == Ok(SlotsOf(LeafOf, gs))
  {
    GroupRenderedFrom(LeafOf, gs, []);
    assert [] + SlotsOf(LeafOf, gs) == SlotsOf(LeafOf, gs);
  }

  /** A comma before any atom makes the next atom fail on the empty slot
      list. */
  lemma LeadingCommaFails(v: string, rest: seq<Token>)
    ensures Group([Comma, Atom(v)] + rest, [], 0) == Err(IndexError)
  {
    var toks := [Comma, Atom(v)] + rest;
    assert toks[1..] == [Atom(v)] + rest;
    assert GroupBy(LeafOf, toks, [], 0) == GroupBy(LeafOf, [Atom(v)] + rest, [], 1);
  }

  /** An empty position between two commas is not a slot of its own: the
      atom after it joins the slot before it. */
  lemma DoubleCommaMerges(a: string, b: string)
    ensures Group([Atom(a), Comma, Comma, Atom(b)], [], 0)
      == Ok([Complex([LeafOf(a), LeafOf(b)])])
  {
    var toks := [Atom(a), Comma, Comma, Atom(b)];
    assert toks[1..] == [Comma, Comma, Atom(b)];
    assert toks[1..][1..] == [Comma, Atom(b)];
    assert toks[1..][1..][1..] == [Atom(b)];
    assert [Atom(b)][1..] == [];
    var one := [Single(LeafOf(a))];
    var two := [Complex([LeafOf(a), LeafOf(b)])];
    var none: seq<Slot> := [];
    assert none + [Single(LeafOf(a))] == one;
    assert Place(none, 0, LeafOf(a)) == Ok(one);
    assert one[..0] + [Merge(one[0], LeafOf(b))] == two;
    assert Place(one, 2, LeafOf(b)) == Ok(two);
    assert GroupBy(LeafOf, [Atom(b)], one, 2) == Ok(two);
    assert GroupBy(LeafOf, [Comma, Atom(b)], one, 1) == Ok(two);
    assert GroupBy(LeafOf, [Comma, Comma, Atom(b)], one, 0) == Ok(two);
  }

  // The kind of each atom the scanner yields follows from how it was
  // scanned.

  /** The atom scanned at `i`, when there is one. */
  function AtomAt(t: string, i: nat): Option<string>
    requires i < |t|
  {
    match TokenAt(t, i)
    case Ok(Step(Some(Atom(v)), _)) => Some(v)
    case _ => None
  }

  lemma QuotedAtomKind(t: string, i: nat)
    requires i < |t| && IsQuote(t[i]) && TokenAt(t, i).Ok?
    ensures AtomAt(t, i).Some? && TypeOf(AtomAt(t, i).value) == STRING
  {
    var e := CloseAt(t, t[i], i + 1).value;
    var v := t[i..e + 1];
    assert AtomAt(t, i) == Some(v);
    assert |v| > 1 && v[0] == t[i] && v[|v| - 1] == t[e];
    assert v[0] != 'N';
  }

  lemma VariableAtomKind(t: string, i: nat)
    requires i < |t| && t[i] == '@' && TokenAt(t, i).Ok?
    ensures AtomAt(t, i).Some? && TypeOf(AtomAt(t, i).value) == INTEGER
  {
    var e := CloseAt(t, '@', i + 1).value;
    var v := t[i..e + 1];
    assert AtomAt(t, i) == Some(v);
    assert |v| > 1 && v[0] == '@' && v[|v| - 1] == t[e];
    assert v[0] != 'N' && v[0] != '"' && v[0] != '\'';
  }

  lemma DigitAtomKind(t: string, i: nat)
    requires i < |t| && IsDigit(t[i])
    ensures AtomAt(t, i).Some? && TypeOf(AtomAt(t, i).value) == INTEGER
  {
    var e := DigitRunEnd(t, i);
    var v := t[i..e + 1];
    assert AtomAt(t, i) == Some(v);
    assert DropFinalNewline(v) == v;
  }

  lemma RegexAtomKind(t: string, i: nat)
    requires i < |t| && t[i] == 'r' && TokenAt(t, i).Ok?
    ensures AtomAt(t, i).Some? && TypeOf(AtomAt(t, i).value) == REGEX
  {
    var q := QuoteFrom(t, i + 5).value;
    var e := CloseAt(t, t[q], q + 1).value;
    var w := t[q..e + 1];
    assert AtomAt(t, i) == Some("regex:" + w);
    RegexWordKind(w);
  }

  /** A scanned regex atom, the quoted pattern after `regex:`, is of kind
      REGEX. */
  lemma RegexWordKind(w: string)
    requires w != [] && IsQuote(w[0])
    ensures TypeOf("regex:" + w) == REGEX
  {
    var v := "regex:" + w;
    assert v[..5] == "regex";
    assert v[5..] == [':'] + w;
    assert LStripChars(v[5..], {' '}) == v[5..];
    assert v[5..][1..] == w;
    assert LStripChars(w, {' '}) == w;
    assert RegexRe(v);
    assert DropFinalNewline(v)[0] == 'r';
  }

  lemma BracketAtomKind(t: string, i: nat)
    requires i < |t| && t[i] == '[' && TokenAt(t, i).Ok?
    ensures AtomAt(t, i).Some? && TypeOf(AtomAt(t, i).value) in {RANGE, UNKNOWN}
  {
    var e := CloseAt(t, ']', i + 1).value;
    var v := t[i..e + 1];
    assert AtomAt(t, i) == Some(v);
    assert v[0] == '[';
    assert DropFinalNewline(v)[0] == '[';
    assert !StartsWith(v, "regex");
  }

  // An example the module's tests give for `parse_expect`, from the string
  // through the scanner and the grouping.

  /** `4 || 6, "ON"` scans to the atoms 4 and 6, a comma and `"ON"`. */
  lemma ScanFromExample()
    ensures ScanFrom("4 || 6, \"ON\"", 0) == Scan([Atom("4"), Atom("6"), Comma, Atom("\"ON\"")], None)
  {
    var t := "4 || 6, \"ON\"";
    assert |t| == 12;
    assert ScanFrom(t, 12) == Scan([], None);
    assert CloseAt(t, '"', 11) == Some(11);
    assert CloseAt(t, '"', 9) == Some(11);
    assert t[8..12] == "\"ON\"";
    assert TokenAt(t, 8) == Ok(Step(Some(Atom("\"ON\"")), 12));
    assert ScanFrom(t, 8) == Scan([Atom("\"ON\"")], None);
    assert ScanFrom(t, 7) == ScanFrom(t, 8);
    assert ScanFrom(t, 6) == Scan([Comma, Atom("\"ON\"")], None);
    assert DigitRunEnd(t, 5) == 5;
    assert t[5..6] == "6";
    assert ScanFrom(t, 5) == Scan([Atom("6"), Comma, Atom("\"ON\"")], None);
    assert ScanFrom(t, 1) == ScanFrom(t, 5);
    assert DigitRunEnd(t, 0) == 0;
    assert t[0..1] == "4";
  }

  /** Those tokens are the runs `4 6` and `"ON"`, so they group into an
      alternation of two integers and a string. */
  lemma GroupExample()
    ensures Group([Atom("4"), Atom("6"), Comma, Atom("\"ON\"")], [], 0)
         == Ok([Complex([Leaf(INTEGER, "4"), Leaf(INTEGER, "6")]), Single(Leaf(STRING, "\"ON\""))])
  {
    var gs := [["4", "6"], ["\"ON\""]];
    assert Render(gs) == [Atom("4"), Atom("6"), Comma, Atom("\"ON\"")] by {
      assert Atoms(gs[0]) == [Atom("4"), Atom("6")];
      assert Render(gs[1..]) == Atoms(["\"ON\""]);
    }
    GroupRendered(gs);
    assert AllDigits("4") && AllDigits("6");
    assert LeafOf("4") == Leaf(INTEGER, "4") && LeafOf("6") == Leaf(INTEGER, "6");
    assert LeafOf("\"ON\"") == Leaf(STRING, "\"ON\"");
    assert Leaves(LeafOf, gs[0]) == [Leaf(INTEGER, "4"), Leaf(INTEGER, "6")];
    assert SlotOf(LeafOf, gs[0]) == Complex([Leaf(INTEGER, "4"), Leaf(INTEGER, "6")]);
    assert SlotsOf(LeafOf, gs[1..]) == [Single(Leaf(STRING, "\"ON\""))];
    assert SlotsOf(LeafOf, gs) == [SlotOf(LeafOf, gs[0])] + SlotsOf(LeafOf, gs[1..]);
    assert SlotsOf(LeafOf, gs) == [Complex([Leaf(INTEGER, "4"), Leaf(INTEGER, "6")]), Single(Leaf(STRING, "\"ON\""))];
  }

  /** `parse_expect("4 || 6, \"ON\"")` is the alternation of 4 and 6, then
      `"ON"`. */
  lemma ParseSpecExample()
    ensures ParseSpec("4 || 6, \"ON\"") == Ok([Complex([Leaf(INTEGER, "4"), Leaf(INTEGER, "6")]), Single(Leaf(STRING, "\"ON\""))])
  {
    ScanFromExample();
    GroupExample();
  }

  // The examples the module's tests give for `type_of`.

  lemma TypeOfQuotedExamples()
    ensures TypeOf("\"@DEF ZYX@\"") == STRING
    ensures TypeOf("''") == STRING
    ensures TypeOf("NULL") == NULL
    ensures TypeOf("@ABC@") == INTEGER
  {
  }

  lemma TypeOfIntegerExample()
    ensures TypeOf("908") == INTEGER
  {
    assert DropFinalNewline("908") == "908";
    assert AllDigits("908");
  }

  lemma TypeOfRegexExample()
    ensures TypeOf("regex: 'DEF ZYX'") == REGEX
  {
    var v := "regex: 'DEF ZYX'";
    assert DropFinalNewline(v)[0] == 'r';
    assert v[..5] == "regex";
    assert v[5..] == ": 'DEF ZYX'";
    assert LStripChars(": 'DEF ZYX'", {' '}) == ": 'DEF ZYX'";
    assert ": 'DEF ZYX'"[1..] == " 'DEF ZYX'";
    assert LStripChars(" 'DEF ZYX'", {' '}) == LStripChars("'DEF ZYX'", {' '}) == "'DEF ZYX'";
  }

  lemma TypeOfRangeExamples()
    ensures TypeOf("[1..5]") == RANGE
    ensures TypeOf("[1..MAX]") == RANGE
  {
    var a := "[1..5]";
    assert DropFinalNewline(a)[0] == '[';
    assert a[2..4] == "..";
    assert a[1..2] == "1";
    assert a[4..5] == "5";
    assert AllDigits(a[1..2]) && AllDigits(a[4..5]);
    assert RangeSplitFrom(a, 2);
    var b := "[1..MAX]";
    assert DropFinalNewline(b)[0] == '[';
    assert b[2..4] == "..";
    assert b[1..2] == "1";
    assert b[4..7] == "MAX";
    assert AllDigits(b[1..2]);
    assert LowBound(b[1..2]) && HighBound(b[4..7]);
    assert RangeSplitFrom(b, 2);
  }

  lemma TypeOfUnknownExamples()
    ensures TypeOf("9.08") == UNKNOWN
    ensures TypeOf("null") == UNKNOWN
  {
    assert DropFinalNewline("9.08") == "9.08";
    assert "9.08"[1] == '.';
    assert DropFinalNewline("null") == "null";
    assert "null"[0] == 'n';
  }

  // ---------------------------------------------------------------------
  // Collapsing one slot

  /** The check at line 111 AS WRITTEN: it looks at the first characters of
      the kind and literal of the second member only, failing when there is
      no second member or its literal is empty. */
  function RangeProbeAsWritten(ms: seq<Leaf>): (r: Result<seq<string>, Error>)
    ensures r.Ok? ==> |r.value| == 2 && |r.value[0]| == 1 && |r.value[1]| == 1
    ensures r.Err? <==> |ms| < 2 || ms[1].literal == ""
  {
    if |ms| < 2 || ms[1].literal == "" then Err(IndexError)
    else Ok([KindName(ms[1].kind)[..1], ms[1].literal[..1]])
  }

  /** As written, the probe never contains "RANGE", so a range inside an
      alternation is never refused. */
  lemma RangeProbeAsWrittenNeverFires(ms: seq<Leaf>)
    ensures RangeProbeAsWritten(ms).Ok? ==> "RANGE" !in RangeProbeAsWritten(ms).value
  {
  }

  /** The input that shows it: an alternation with a range member passes the
      check as written. */
  lemma RangeProbeAsWrittenMissesRange()
    ensures var ms := [Leaf(RANGE, "[1..5]"), Leaf(INTEGER, "4")];
      HasKind(ms, RANGE) && RangeProbeAsWritten(ms).Ok? && "RANGE" !in RangeProbeAsWritten(ms).value
  {
    var ms := [Leaf(RANGE, "[1..5]"), Leaf(INTEGER, "4")];
    assert ms[0].kind == RANGE;
    RangeProbeAsWrittenNeverFires(ms);
  }

  /** Some member has kind `k`. */
  predicate HasKind(ms: seq<Leaf>, k: Kind) {
    exists j :: 0 <= j < |ms| && ms[j].kind == k
  }

  /** The members without the NULL ones, in order. */
  function DropNulls(ms: seq<Leaf>): (r: seq<Leaf>)
    ensures |r| <= |ms|
    ensures forall j :: 0 <= j < |r| ==> r[j].kind != NULL
    ensures |r| == |ms| <==> !HasKind(ms, NULL)
  {
    if ms == [] then []
    else
      var rest := DropNulls(ms[1..]);
      assert forall j :: 1 <= j < |ms| ==> ms[j] == ms[1..][j - 1];
      if ms[0].kind == NULL then rest else [ms[0]] + rest
  }

  /** `.replace('regex:', '')` */
  function StripRegex(v: string): string { ReplaceAll(v, "regex:", "") }

  const Quotes: set<char> := {'"', '\''}

  /** The alternatives of the collapsed regex: each member's literal without
      `regex:` and without outer quote characters. */
  function Alternatives(ms: seq<Leaf>): (r: seq<string>)
    ensures |r| == |ms| && forall k :: 0 <= k < |ms| ==> r[k] == StripChars(StripRegex(ms[k].literal), Quotes)
  {
    if ms == [] then [] else [StripChars(StripRegex(ms[0].literal), Quotes)] + Alternatives(ms[1..])
  }

  /** The final re-quoting: a single-quoted value of at least two characters
      becomes double-quoted, its inner double quotes backslash-escaped. */
  function Requote(v: string): string
  {
    if |v| >= 2 && v[0] == '\'' then "\"" + ReplaceAll(v[1..|v| - 1], "\"", "\\\"") + "\"" else v
  }

  /** A slot that is one leaf: a range becomes INTEGER, any other value
      loses its `regex:`; then the value is re-quoted. */
  function CollapseLeaf(l: Leaf): (string, string)
  {
    if l.kind == RANGE then ("INTEGER", Requote(l.literal))
    else (KindName(l.kind), Requote(StripRegex(l.literal)))
  }

  /** The rest of `compute_type_and_expect` for an alternation, once the
      check of line 111 is passed: the NULL members dropped, then the
      anchored regex of several alternatives or the one member left. */
  function CollapseMembers(ms: seq<Leaf>): Result<(string, string), Error>
  {
    var kept := DropNulls(ms);
    var suffix := if HasKind(ms, NULL) then "_OR_NULL" else "";
    var vals := Alternatives(kept);
    if |vals| > 1 then Ok(("REGEX" + suffix, Requote("\"^(" + Join(vals, "|") + ")$\"")))
    else if kept == [] then Err(IndexError)
    else Ok((KindName(kept[0].kind) + suffix, Requote(StripRegex(kept[0].literal))))
  }

  /** `compute_type_and_expect` as written: the check of line 111 probes the
      second member only, fails where the probe indexes past a list or a
      string, and never refuses a range. */
  function Collapse(s: Slot): Result<(string, string), Error>
  {
    match s
    case Single(l) => Ok(CollapseLeaf(l))
    case Complex(ms) =>
      match RangeProbeAsWritten(ms)
      case Err(e) => Err(e)
      case Ok(probe) => if "RANGE" in probe then Err(ComplexRange) else CollapseMembers(ms)
  }

  /** `compute_type_and_expect` with the check of line 111 as it is
      evidently meant: an alternation with a range member is refused, and no
      member is probed by index. */
  function CollapseMeant(s: Slot): Result<(string, string), Error>
  {
    match s
    case Single(l) => Ok(CollapseLeaf(l))
    case Complex(ms) => if HasKind(ms, RANGE) then Err(ComplexRange) else CollapseMembers(ms)
  }

  /** The reversed deletion loop of `compute_type_and_expect`: the members
      without the NULL ones, and the `_OR_NULL` suffix when there was one. */
  method DeleteNulls(ms: seq<Leaf>) returns (members: seq<Leaf>, orNull: string)
    ensures members == DropNulls(ms)
    ensures orNull == if HasKind(ms, NULL) then "_OR_NULL" else ""
  {
    members := ms;
    orNull := "";
    var i := |members|;
    while i > 0
      invariant 0 <= i <= |ms|
      invariant members == ms[..i] + DropNulls(ms[i..])
      invariant orNull == if HasKind(ms[i..], NULL) then "_OR_NULL" else ""
    {
      i := i - 1;
      DeleteNullsStep(ms, i, members);
      if members[i].kind == NULL {
        orNull := "_OR_NULL";
        members := members[..i] + members[i + 1..];
      }
    }
    assert ms[0..] == ms;
  }

  /** One turn of the reversed deletion loop at index `i`. */
  lemma DeleteNullsStep(ms: seq<Leaf>, i: nat, members: seq<Leaf>)
    requires i < |ms| && members == ms[..i + 1] + DropNulls(ms[i + 1..])
    ensures members[i] == ms[i]
    ensures (if ms[i].kind == NULL then members[..i] + members[i + 1..] else members)
      == ms[..i] + DropNulls(ms[i..])
    ensures HasKind(ms[i..], NULL) <==> ms[i].kind == NULL || HasKind(ms[i + 1..], NULL)
  {
    var rest := DropNulls(ms[i + 1..]);
    assert ms[i..] == [ms[i]] + ms[i + 1..];
    DropNullsCons(ms[i], ms[i + 1..]);
    assert ms[..i + 1] == ms[..i] + [ms[i]];
    assert members[..i] == ms[..i];
    assert members[i + 1..] == rest;
  }

  lemma DropNullsCons(x: Leaf, rest: seq<Leaf>)
    ensures DropNulls([x] + rest) == (if x.kind == NULL then [] else [x]) + DropNulls(rest)
    ensures HasKind([x] + rest, NULL) <==> x.kind == NULL || HasKind(rest, NULL)
  {
    assert ([x] + rest)[1..] == rest;
    if HasKind(rest, NULL) {
      var j :| 0 <= j < |rest| && rest[j].kind == NULL;
      assert ([x] + rest)[j + 1] == rest[j];
    }
  }

  /** `compute_type_and_expect`. */
  method ComputeTypeAndExpect(s: Slot) returns (r: Result<(string, string), Error>)
    ensures r == Collapse(s)
  {
    var ty: string;
    var ex: string;
    match s {
      case Single(l) =>
        ty := KindName(l.kind);
        ex := l.literal;
        if l.kind == RANGE {
          ty := "INTEGER";
        } else {
          ex := StripRegex(ex);
        }
      case Complex(ms) =>
        if |ms| < 2 || ms[1].literal == "" {
          return Err(IndexError);
        }
        var probe := [KindName(ms[1].kind)[..1], ms[1].literal[..1]];
        if "RANGE" in probe {
          return Err(ComplexRange);
        }
        var members, orNull := DeleteNulls(ms);
        var vals := seq(|members|, k requires 0 <= k < |members| => StripChars(StripRegex(members[k].literal), Quotes));
        assert vals == Alternatives(members);
        if |vals| > 1 {
          ty := "REGEX";
          ex := "\"^(" + Join(vals, "|") + ")$\"";
        } else {
          if |members| == 0 {
            return Err(IndexError);
          }
          ty := KindName(members[0].kind);
          ex := StripRegex(members[0].literal);
        }
        ty := ty + orNull;
    }
    if |ex| >= 2 && ex[0] == '\'' {
      var val := ReplaceAll(ex[1..|ex| - 1], "\"", "\\\"");
      ex := "\"" + val + "\"";
    }
    return Ok((ty, ex));
  }

  // What the collapse promises.

  /** A leaf that is not a range, holds no `regex:` and is not single-quoted
      comes back unchanged, so an already collapsed value is a fixed
      point. */
  lemma CollapseSingleUnchanged(l: Leaf)
    requires l.kind != RANGE && !Contains(l.literal, "regex:")
    requires !(|l.literal| >= 2 && l.literal[0] == '\'')
    ensures Collapse(Single(l)) == Ok((KindName(l.kind), l.literal))
  {
    ReplaceAllAbsent(l.literal, "regex:", "");
  }

  /** A range becomes an INTEGER with its literal kept. */
  lemma CollapseRange(l: Leaf)
    requires l.kind == RANGE && !(|l.literal| >= 2 && l.literal[0] == '\'')
    ensures Collapse(Single(l)) == Ok(("INTEGER", l.literal))
  {
  }

  /** The `_OR_NULL` suffix appears exactly when a member was NULL, range
      members included. */
  lemma CollapseOrNull(ms: seq<Leaf>)
    requires Collapse(Complex(ms)).Ok?
    ensures EndsWith(Collapse(Complex(ms)).value.0, "_OR_NULL") <==> HasKind(ms, NULL)
  {
    var ty := Collapse(Complex(ms)).value.0;
    var kept := DropNulls(ms);
    var base := if |kept| > 1 then "REGEX" else KindName(kept[0].kind);
    if HasKind(ms, NULL) {
      assert ty == base + "_OR_NULL";
      assert ty[|ty| - 8..] == "_OR_NULL";
    } else {
      assert ty == base + "";
      assert |ty| < 8;
    }
  }

  /** Two or more members left after the NULLs go make the anchored regex
      of their alternatives, in member order, range members among them; an
      empty second literal is the IndexError of the probe. */
  lemma CollapseAlternation(ms: seq<Leaf>)
    requires |DropNulls(ms)| >= 2
    ensures ms[1].literal == "" ==> Collapse(Complex(ms)) == Err(IndexError)
    ensures ms[1].literal != "" ==> Collapse(Complex(ms)) == Ok((
      "REGEX" + (if HasKind(ms, NULL) then "_OR_NULL" else ""),
      "\"^(" + Join(Alternatives(DropNulls(ms)), "|") + ")$\""))
  {
    RangeProbeAsWrittenNeverFires(ms);
  }

  /** One member left: its own type (RANGE too), plus the suffix, and its
      literal without `regex:`; an alternation of one member, or with an
      empty second literal, is the IndexError of the probe. */
  lemma CollapseOneLeft(ms: seq<Leaf>)
    requires |DropNulls(ms)| == 1
    ensures var l := DropNulls(ms)[0];
      l.kind != NULL
      && Collapse(Complex(ms)) ==
           if |ms| < 2 || ms[1].literal == "" then Err(IndexError)
           else Ok((KindName(l.kind) + (if HasKind(ms, NULL) then "_OR_NULL" else ""),
                    Requote(StripRegex(l.literal))))
  {
  }

  lemma {:induction false} DropNullsAllNull(ms: seq<Leaf>)
    requires forall j :: 0 <= j < |ms| ==> ms[j].kind == NULL
    ensures DropNulls(ms) == []
  {
    if ms != [] {
      assert forall j :: 0 <= j < |ms| - 1 ==> ms[1..][j] == ms[j + 1];
      DropNullsAllNull(ms[1..]);
    }
  }

  /** An alternation of NULLs only has no member left to take the type of. */
  lemma CollapseAllNull(ms: seq<Leaf>)
    requires forall j :: 0 <= j < |ms| ==> ms[j].kind == NULL
    ensures Collapse(Complex(ms)) == Err(IndexError)
  {
    DropNullsAllNull(ms);
  }

  /** With the check meant at line 111, a range member refuses the
      alternation. */
  lemma CollapseRejectsRange(ms: seq<Leaf>)
    requires HasKind(ms, RANGE)
    ensures CollapseMeant(Complex(ms)) == Err(ComplexRange)
  {
  }

  /** The corrected check changes nothing else: a leaf, and an alternation
      without a range member as the parser builds it, collapse as the code
      is written. */
  lemma CollapseMeantAgrees(s: Slot)
    requires SlotOk(s) && !(s.Complex? && HasKind(s.members, RANGE))
    ensures CollapseMeant(s) == Collapse(s)
  {
  }

  /** As written, an alternation of a range and another plain value is
      collapsed like any other, into the anchored regex of both. */
  lemma CollapseRangeAlternationAsWritten(a: string, b: string, kb: Kind)
    requires a != [] && 'r' !in a && a[0] !in Quotes && a[|a| - 1] !in Quotes
    requires b != [] && 'r' !in b && b[0] !in Quotes && b[|b| - 1] !in Quotes
    requires kb != NULL
    ensures Collapse(Complex([Leaf(RANGE, a), Leaf(kb, b)])) == Ok(("REGEX", "\"^(" + a + "|" + b + ")$\""))
  {
    var ms := [Leaf(RANGE, a), Leaf(kb, b)];
    TwoPlainMembers(a, b, kb);
    CollapseAlternation(ms);
    assert Join([a, b], "|") == a + "|" + b;
    assert "REGEX" + "" == "REGEX";
    assert "\"^(" + (a + "|" + b) + ")$\"" == "\"^(" + a + "|" + b + ")$\"";
  }

  lemma TwoPlainMembers(a: string, b: string, kb: Kind)
    requires a != [] && 'r' !in a && a[0] !in Quotes && a[|a| - 1] !in Quotes
    requires b != [] && 'r' !in b && b[0] !in Quotes && b[|b| - 1] !in Quotes
    requires kb != NULL
    ensures var ms := [Leaf(RANGE, a), Leaf(kb, b)];
      DropNulls(ms) == ms && !HasKind(ms, NULL) && Alternatives(ms) == [a, b]
  {
    var ms := [Leaf(RANGE, a), Leaf(kb, b)];
    assert DropNulls(ms) == ms by {
      assert ms[1..] == [ms[1]];
    }
    assert !HasKind(ms, NULL);
    PlainAlternative(a);
    PlainAlternative(b);
  }

  /** As written, a range or NULL keeps the range's own type name with the
      suffix: `RANGE_OR_NULL`. */
  lemma CollapseRangeOrNullAsWritten(a: string)
    requires a != [] && !Contains(a, "regex:") && !(|a| >= 2 && a[0] == '\'')
    ensures Collapse(Complex([Leaf(RANGE, a), Leaf(NULL, "NULL")])) == Ok(("RANGE_OR_NULL", a))
  {
    var ms := [Leaf(RANGE, a), Leaf(NULL, "NULL")];
    assert DropNulls(ms) == [ms[0]] by {
      assert DropNulls(ms[1..]) == [];
    }
    assert HasKind(ms, NULL) by {
      assert ms[1].kind == NULL;
    }
    ReplaceAllAbsent(a, "regex:", "");
    CollapseOneLeft(ms);
    assert ms[1].literal != "";
    assert Collapse(Complex(ms)) == Ok((KindName(RANGE) + "_OR_NULL", Requote(StripRegex(a))));
    assert KindName(RANGE) + "_OR_NULL" == "RANGE_OR_NULL";
  }

  /** The expect value `[1..5] || 4` becomes `"^([1..5]|4)$"`. */
  lemma CollapseRangeAlternationExample()
    ensures Collapse(Complex([Leaf(RANGE, "[1..5]"), Leaf(INTEGER, "4")])) == Ok(("REGEX", "\"^([1..5]|4)$\""))
  {
    assert "\"^(" + "[1..5]" + "|" + "4" + ")$\"" == "\"^([1..5]|4)$\"";
    CollapseRangeAlternationAsWritten("[1..5]", "4", INTEGER);
  }

  /** The expect value `[1..5] || NULL` becomes `RANGE_OR_NULL` over
      `[1..5]`. */
  lemma CollapseRangeOrNullExample()
    ensures Collapse(Complex([Leaf(RANGE, "[1..5]"), Leaf(NULL, "NULL")])) == Ok(("RANGE_OR_NULL", "[1..5]"))
  {
    AbsentFirst("[1..5]", "regex:");
    CollapseRangeOrNullAsWritten("[1..5]");
  }

  /** A literal without `r` or outer quotes is its own alternative. */
  lemma PlainAlternative(v: string)
    requires v != [] && 'r' !in v && v[0] !in Quotes && v[|v| - 1] !in Quotes
    ensures StripChars(StripRegex(v), Quotes) == v
  {
    AbsentFirst(v, "regex:");
    ReplaceAllAbsent(v, "regex:", "");
    assert LStripChars(v, Quotes) == v;
    assert RStripChars(v, Quotes) == v;
  }

  /** Every double quote has a backslash just before it. */
  predicate EscapedQuotes(s: string) {
    forall k :: 0 <= k < |s| && s[k] == '"' ==> k > 0 && s[k - 1] == '\\'
  }

  lemma {:induction false} EscapeQuotes(s: string)
    ensures EscapedQuotes(ReplaceAll(s, "\"", "\\\""))
  {
    if s != [] {
      var rest := ReplaceAll(s[1..], "\"", "\\\"");
      EscapeQuotes(s[1..]);
      if At(s, 0, "\"") {
        assert s[|"\""|..] == s[1..];
        var r := "\\\"" + rest;
        assert ReplaceAll(s, "\"", "\\\"") == r;
        forall k | 0 <= k < |r| && r[k] == '"' ensures k > 0 && r[k - 1] == '\\' {
          if k >= 2 { assert r[k] == rest[k - 2]; }
        }
      } else {
        var r := [s[0]] + rest;
        assert ReplaceAll(s, "\"", "\\\"") == r;
        forall k | 0 <= k < |r| && r[k] == '"' ensures k > 0 && r[k - 1] == '\\' {
          if k >= 1 { assert r[k] == rest[k - 1]; }
        }
      }
    }
  }

  /** The re-quoting leaves a value alone unless it is single-quoted; then it
      makes a double-quoted value of the inside, with no unescaped double
      quote left in it. */
  lemma RequoteQuotes(v: string)
    ensures !(|v| >= 2 && v[0] == '\'') ==> Requote(v) == v
    ensures |v| >= 2 && v[0] == '\'' ==>
      var r := Requote(v);
      |r| >= 2 && r[0] == '"' && r[|r| - 1] == '"' && EscapedQuotes(r[1..|r| - 1])
  {
    if |v| >= 2 && v[0] == '\'' {
      EscapeQuotes(v[1..|v| - 1]);
      var r := Requote(v);
      assert r[1..|r| - 1] == ReplaceAll(v[1..|v| - 1], "\"", "\\\"");
    }
  }

  // Examples from the module's tests.

  lemma CollapseRangeExample()
    ensures Collapse(Single(Leaf(RANGE, "[4..MAX]"))) == Ok(("INTEGER", "[4..MAX]"))
  {
  }

  lemma CollapseRegexExample()
    ensures Collapse(Single(Leaf(REGEX, "regex:\"@ABC@\""))) == Ok(("REGEX", "\"@ABC@\""))
  {
    StripRegexExample();
  }

  lemma StripRegexExample()
    ensures StripRegex("regex:\"@ABC@\"") == "\"@ABC@\""
  {
    var v, w := "regex:\"@ABC@\"", "\"@ABC@\"";
    assert At(v, 0, "regex:");
    assert v[6..] == w;
    AbsentFirst(w, "regex:");
    ReplaceAllAbsent(w, "regex:", "");
  }

  /** A double-quoted value without `r` and without quotes at either inner
      end is unquoted once in an alternation. */
  lemma AlternativeOfQuoted(v: string)
    requires v != [] && 'r' !in v && v[0] !in Quotes && v[|v| - 1] !in Quotes
    ensures StripChars(StripRegex("\"" + v + "\""), Quotes) == v
  {
    var q := "\"" + v + "\"";
    AbsentFirst(q, "regex:");
    ReplaceAllAbsent(q, "regex:", "");
    assert q[1..] == v + "\"";
    assert (v + "\"")[0] == v[0];
    assert LStripChars(q, Quotes) == LStripChars(v + "\"", Quotes) == v + "\"";
    assert (v + "\"")[..|v|] == v;
    assert RStripChars(v + "\"", Quotes) == RStripChars(v, Quotes) == v;
  }

  /** Two quoted non-NULL values make the regex of the two unquoted values
      (the shape of `"ALERT" || "LOG"` becoming `"^(ALERT|LOG)$"`). */
  lemma CollapseTwoQuoted(a: string, b: string, ka: Kind, kb: Kind)
    requires a != [] && 'r' !in a && a[0] !in Quotes && a[|a| - 1] !in Quotes
    requires b != [] && 'r' !in b && b[0] !in Quotes && b[|b| - 1] !in Quotes
    requires ka != NULL && kb != NULL
    ensures Collapse(Complex([Leaf(ka, "\"" + a + "\""), Leaf(kb, "\"" + b + "\"")]))
         == Ok(("REGEX", "\"^(" + a + "|" + b + ")$\""))
  {
    var ms := [Leaf(ka, "\"" + a + "\""), Leaf(kb, "\"" + b + "\"")];
    TwoQuotedMembers(a, b, ka, kb);
    CollapseAlternation(ms);
    assert Join([a, b], "|") == a + "|" + b;
    assert "REGEX" + "" == "REGEX";
    assert "\"^(" + (a + "|" + b) + ")$\"" == "\"^(" + a + "|" + b + ")$\"";
  }

  lemma TwoQuotedMembers(a: string, b: string, ka: Kind, kb: Kind)
    requires a != [] && 'r' !in a && a[0] !in Quotes && a[|a| - 1] !in Quotes
    requires b != [] && 'r' !in b && b[0] !in Quotes && b[|b| - 1] !in Quotes
    requires ka != NULL && kb != NULL
    ensures var ms := [Leaf(ka, "\"" + a + "\""), Leaf(kb, "\"" + b + "\"")];
      DropNulls(ms) == ms && !HasKind(ms, NULL) && Alternatives(ms) == [a, b]
  {
    var ms := [Leaf(ka, "\"" + a + "\""), Leaf(kb, "\"" + b + "\"")];
    assert DropNulls(ms) == ms by {
      assert ms[1..] == [ms[1]];
    }
    assert !HasKind(ms, NULL);
    AlternativeOfQuoted(a);
    AlternativeOfQuoted(b);
  }

  lemma CollapseOrNullExample()
    ensures Collapse(Complex([Leaf(INTEGER, "1"), Leaf(NULL, "NULL")])) == Ok(("INTEGER_OR_NULL", "1"))
  {
    var ns := [Leaf(INTEGER, "1"), Leaf(NULL, "NULL")];
    assert DropNulls(ns) == [Leaf(INTEGER, "1")];
    assert HasKind(ns, NULL);
    assert |Alternatives([Leaf(INTEGER, "1")])| == 1;
    AbsentFirst("1", "regex:");
    ReplaceAllAbsent("1", "regex:", "");
    assert KindName(INTEGER) + "_OR_NULL" == "INTEGER_OR_NULL";
  }
}
