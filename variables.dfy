/** Variable substitution in an audit (`variables/replace_variables.py`):
    the `#<variable>` blocks of a header give each variable a default
    value, and every `@NAME@` on a line that is not a comment is replaced by
    that value. A comment line that still names a variable records a note
    (the variable, a field and the value it used to hold), and the next
    line that sets that field has the old value replaced by the new one.

    The header loop is stated over the block reader it applies and the
    substitution over the text operations it applies (`Ops`), so what is
    proved about them holds whatever those decide; `Entry` and `Source`
    are the script's own. */
module Variables {
  import opened Wrappers
  import opened Text
  import opened Search
  import opened Lists
  import opened Dicts

  /** `InvalidVariable` is the exit with status 1 for a malformed block;
      `IndexError` is `parts[3]` of a note with fewer than three `"`;
      `KeyError` is a note whose variable is not in the table, which
      `ReplaceNoKeyError` shows cannot happen. */
  datatype Error = InvalidVariable | IndexError | KeyError

  // ---------------------------------------------------------------------
  // The variable table

  /** The dictionary `variables`: names with their values, in the order the
      names were first stored (the substitution visits them in that order). */
  type Table = Dict<string>

  // ---------------------------------------------------------------------
  // The header patterns (all under re.M, so `^` is a line start)

  /** `^[ \t]*#[ \t]*` followed by `tag` at `q`: the index after the tag. */
  function CommentTagAt(s: string, q: nat, tag: string): (r: Option<nat>)
    ensures r.Some? ==> q < r.value <= |s|
  {
    if q <= |s| && (q == 0 || s[q - 1] == '\n') then
      var a := BlankRunEnd(s, q);
      if At(s, a, "#") then
        var b := BlankRunEnd(s, a + 1);
        if At(s, b, tag) then Some(b + |tag|) else None
      else None
    else None
  }

  /** `regexes['vars']` (re.S as well) at `q`: a `<variable>` comment
      line, then as little as possible up to the first later line that is a
      `</variable>` comment; the whole match and where it ends. */
  function VarsAt(s: string, q: nat): (r: Option<(string, nat)>)
    ensures r.Some? ==> q < r.value.1 <= |s|
  {
    var c :- CommentTagAt(s, q, "<variable>");
    var e :- FirstAt(c, |s|, (e: nat) => CommentTagAt(s, e, "</variable>").Some?);
    var f := CommentTagAt(s, e, "</variable>").value;
    Some((s[q..f], f))
  }

  /** `regexes['name']` and `regexes['dflt']` at `q`: an `open` comment
      tag, then the shortest text on the same line before `close`; that
      text and where the match ends. */
  function TagTextAt(s: string, q: nat, open: string, close: string): (r: Option<(string, nat)>)
    ensures r.Some? ==> q < r.value.1 <= |s|
  {
    var c :- CommentTagAt(s, q, open);
    var e :- FirstAt(c, |s|, (e: nat) => e >= |s| || s[e] == '\n' || At(s, e, close));
    if e < |s| && s[e] != '\n' && At(s, e, close) then
      Some((s[c..e], e + |close|))
    else None
  }

  /** `regexes['vars'].findall(content)`. */
  function Blocks(content: string): seq<string> {
    FindAll(|content|, 0, (q: nat) => VarsAt(content, q))
  }

  /** `regexes['name'].findall(block)`. */
  function Names(block: string): seq<string> {
    FindAll(|block|, 0, (q: nat) => TagTextAt(block, q, "<name>", "</name>"))
  }

  /** `regexes['dflt'].findall(block)`. */
  function Defaults(block: string): seq<string> {
    FindAll(|block|, 0, (q: nat) => TagTextAt(block, q, "<default>", "</default>"))
  }

  /** One block: its name and default when it has exactly one of each,
      otherwise the invalid-variable exit. */
  function Entry(block: string): (r: Result<(string, string), Error>)
    ensures r.Ok? <==> |Names(block)| == 1 && |Defaults(block)| == 1
    ensures r.Ok? ==> r.value == (Names(block)[0], Defaults(block)[0])
    ensures r.Err? ==> r.error == InvalidVariable
  {
    if |Names(block)| == 1 && |Defaults(block)| == 1 then Ok((Names(block)[0], Defaults(block)[0]))
    else Err(InvalidVariable)
  }

  /** The loop of `get_variables` from block `k` on, into the table `t`,
      reading each block with `entry`. */
  function Tabulate(entry: string -> Result<(string, string), Error>, t: Table, blocks: seq<string>, k: nat)
    : (r: Result<Table, Error>)
    requires k <= |blocks|
    ensures r.Ok? && Distinct(t) ==> Distinct(r.value)
    decreases |blocks| - k
  {
    if k == |blocks| then Ok(t)
    else
      match entry(blocks[k])
      case Err(e) => Err(e)
      case Ok(e) =>
        if Distinct(t) then
          PutDistinct(t, e.0, e.1);
          Tabulate(entry, Put(t, e.0, e.1), blocks, k + 1)
        else Tabulate(entry, Put(t, e.0, e.1), blocks, k + 1)
  }

  /** `get_variables(content)`; None is the call with no content. */
  function Variables(content: Option<string>): (r: Result<Table, Error>)
    ensures content.None? || content == Some("") ==> r == Ok([])
    ensures r.Ok? ==> Distinct(r.value)
  {
    if content.None? then Ok([]) else Tabulate(Entry, [], Blocks(content.value), 0)
  }

  /** The value the table ends with for `name`: that of the last block
      from `k` on that names it. */
  function Latest(entry: string -> Result<(string, string), Error>, blocks: seq<string>, k: nat, name: string)
    : Option<string>
    requires k <= |blocks|
    decreases |blocks| - k
  {
    if k == |blocks| then None
    else
      var later := Latest(entry, blocks, k + 1, name);
      if later.Some? then later
      else
        match entry(blocks[k])
        case Ok(e) => if e.0 == name then Some(e.1) else None
        case Err(_) => None
  }

  /** The loop fails exactly when some block fails to read, with that
      block's error. */
  lemma {:induction false} TabulateFails(entry: string -> Result<(string, string), Error>, t: Table, blocks: seq<string>, k: nat)
    requires k <= |blocks|
    ensures Tabulate(entry, t, blocks, k).Err? <==> exists j :: k <= j < |blocks| && entry(blocks[j]).Err?
    ensures Tabulate(entry, t, blocks, k).Err? ==>
      exists j :: k <= j < |blocks| && entry(blocks[j]) == Err(Tabulate(entry, t, blocks, k).error)
    decreases |blocks| - k
  {
    if k < |blocks| {
      match entry(blocks[k])
      case Err(_) =>
      case Ok(e) =>
        TabulateFails(entry, Put(t, e.0, e.1), blocks, k + 1);
    }
  }

  /** Each name ends with the value of the last block naming it; names no
      block mentions keep what they had. */
  lemma {:induction false} TabulateLookup(entry: string -> Result<(string, string), Error>, t: Table, blocks: seq<string>, k: nat, name: string)
    requires k <= |blocks| && Tabulate(entry, t, blocks, k).Ok?
    ensures Lookup(Tabulate(entry, t, blocks, k).value, name)
      == if Latest(entry, blocks, k, name).Some? then Latest(entry, blocks, k, name) else Lookup(t, name)
    decreases |blocks| - k
  {
    if k < |blocks| {
      var e := entry(blocks[k]).value;
      TabulateLookup(entry, Put(t, e.0, e.1), blocks, k + 1, name);
      PutLookup(t, e.0, e.1, name);
    }
  }

  /** `get_variables` fails exactly when a block lacks a single name or a
      single default. */
  lemma VariablesFail(content: string)
    ensures var b := Blocks(content);
      Variables(Some(content)).Err? <==>
        exists j :: 0 <= j < |b| && !(|Names(b[j])| == 1 && |Defaults(b[j])| == 1)
  {
    var b := Blocks(content);
    TabulateFails(Entry, [], b, 0);
    if Variables(Some(content)).Err? {
      var j :| 0 <= j < |b| && Entry(b[j]).Err?;
    }
  }

  /** ... and then only with the invalid-variable exit. */
  lemma VariablesError(content: string)
    ensures Variables(Some(content)).Err? ==> Variables(Some(content)).error == InvalidVariable
  {
    var b := Blocks(content);
    TabulateFails(Entry, [], b, 0);
    if Variables(Some(content)).Err? {
      var j :| 0 <= j < |b| && Entry(b[j]) == Err(Variables(Some(content)).error);
    }
  }

  /** Otherwise every name maps to the default of the last block naming
      it. */
  lemma VariablesLookup(content: string, name: string)
    requires Variables(Some(content)).Ok?
    ensures Lookup(Variables(Some(content)).value, name) == Latest(Entry, Blocks(content), 0, name)
  {
    TabulateLookup(Entry, [], Blocks(content), 0, name);
  }

  /** The loop of `get_variables`. */
  method TabulateBlocks(entry: string -> Result<(string, string), Error>, blocks: seq<string>)
    returns (r: Result<Table, Error>)
    ensures r == Tabulate(entry, [], blocks, 0)
  {
    var t: Table := [];
    for k := 0 to |blocks|
      invariant Tabulate(entry, t, blocks, k) == Tabulate(entry, [], blocks, 0)
    {
      var e := entry(blocks[k]);
      if e.Err? {
        return Err(e.error);
      }
      t := Put(t, e.value.0, e.value.1);
    }
    return Ok(t);
  }

  /** `get_variables` as the source runs it. */
  method GetVariables(content: Option<string>) returns (r: Result<Table, Error>)
    ensures r == Variables(content)
  {
    if content.None? {
      return Ok([]);
    }
    r := TabulateBlocks(Entry, Blocks(content.value));
  }

  // ---------------------------------------------------------------------
  // Replacing the values

  /** A note left by an earlier substitution: the variable, the field it
      was used in and the value that field held. */
  datatype Pending = Pending(name: string, field: string, value: string)

  /** `'@{}@'.format(var)`. */
  function Marker(name: string): (r: string)
    ensures |r| == |name| + 2 && r[0] == '@' && r[|r| - 1] == '@'
  {
    "@" + name + "@"
  }

  /** The text operations the substitution applies: `p in s`, the comment
      test `s.strip()[0] == '#'`, `s.replace(p, r)`, `s.split('"')` and
      the field pattern. `Source` gives the script's own. */
  datatype Ops = Ops(
    has: (string, string) -> bool,
    comment: string -> bool,
    replace: (string, string, string) -> string,
    quotes: string -> seq<string>,
    sets: (string, string) -> bool)

  /** `line.strip()[0] == '#'`. The script indexes without a check; it only
      does so on a line holding a marker, which `MarkerNotBlank` shows is
      never blank. */
  predicate IsComment(line: string) {
    Strip(line) != [] && Strip(line)[0] == '#'
  }

  lemma MarkerNotBlank(line: string, name: string)
    requires Contains(line, Marker(name))
    ensures Strip(line) != []
  {
    var j := IndexOf(line, Marker(name)).value;
    assert line[j] == '@';
  }

  /** `re.match('^[ \t]*' + field + '[ \t]*:', line)` with the field taken
      as literal text: some split of the leading blanks puts the field
      next, then blanks and a colon. */
  predicate FieldAt(line: string, field: string) {
    FirstAt(0, BlankRunEnd(line, 0), (a: nat) =>
      At(line, a, field) && At(line, BlankRunEnd(line, a + |field|), ":")).Some?
  }

  const Source: Ops := Ops(
    (s: string, p: string) => Contains(s, p), IsComment,
    (s: string, p: string, r: string) => ReplaceAll(s, p, r),
    (s: string) => Split(s, '"'), FieldAt)

  /** Replacing a text that does not occur changes nothing. */
  ghost predicate Lawful(O: Ops) {
    forall s, p, r :: p != [] && !O.has(s, p) ==> O.replace(s, p, r) == s
  }

  lemma SourceLawful()
    ensures Lawful(Source)
  {
    forall s, p, r | p != [] && !Source.has(s, p)
      ensures Source.replace(s, p, r) == s
    {
      ReplaceAllAbsent(s, p, r);
    }
  }

  /** The loop over the variables for one line, from variable `k` on: a
      line that is not a comment has the marker replaced; a comment line
      that names the variable queues a note from its second and fourth
      `"`-separated parts. */
  function Substitute(O: Ops, t: Table, k: nat, line: string, pending: seq<Pending>)
    : (r: Result<(string, seq<Pending>), Error>)
    requires k <= |t|
    ensures r.Ok? ==> |pending| <= |r.value.1| && r.value.1[..|pending|] == pending
    ensures r.Ok? ==> forall x :: |pending| <= x < |r.value.1| ==> r.value.1[x].name in Keys(t)
    ensures r.Err? ==> r.error == IndexError
    decreases |t| - k
  {
    if k == |t| then Ok((line, pending))
    else
      var name := Marker(t[k].0);
      var l := if O.has(line, name) && !O.comment(line) then O.replace(line, name, t[k].1) else line;
      if O.has(l, name) && O.comment(l) then
        var parts := O.quotes(l);
        if |parts| < 4 then Err(IndexError)
        else
          var q := pending + [Pending(t[k].0, parts[3], parts[1])];
          var r := Substitute(O, t, k + 1, l, q);
          assert r.Ok? ==> r.value.1[..|pending|] == r.value.1[..|q|][..|pending|];
          r
      else Substitute(O, t, k + 1, l, pending)
  }

  /** The loop over the notes for one line, from note `n` on: each note
      whose field the line (as rewritten so far) sets has its old value
      replaced by the variable's value and its index listed for removal. */
  function Consume(O: Ops, t: Table, pending: seq<Pending>, n: nat, line: string, remove: seq<nat>)
    : (r: Result<(string, seq<nat>), Error>)
    requires n <= |pending|
    ensures r.Ok? ==> |remove| <= |r.value.1| && r.value.1[..|remove|] == remove
    ensures r.Ok? ==> forall x :: |remove| <= x < |r.value.1| ==> n <= r.value.1[x] < |pending|
    ensures r.Ok? && Ascending(remove) && (forall x :: 0 <= x < |remove| ==> remove[x] < n) ==> Ascending(r.value.1)
    ensures r.Err? ==> r.error == KeyError && exists x :: n <= x < |pending| && pending[x].name !in Keys(t)
    decreases |pending| - n
  {
    if n == |pending| then Ok((line, remove))
    else if O.sets(line, pending[n].field) then
      var value := Lookup(t, pending[n].name);
      if value.None? then Err(KeyError)
      else
        var rm := remove + [n];
        var r := Consume(O, t, pending, n + 1, O.replace(line, pending[n].value, value.value), rm);
        assert r.Ok? ==> r.value.1[..|remove|] == r.value.1[..|rm|][..|remove|];
        r
    else Consume(O, t, pending, n + 1, line, remove)
  }

  /** One pass of the loop body of `replace_variable_values`: the new line
      and the notes still waiting. */
  function LineStep(O: Ops, t: Table, line: string, pending: seq<Pending>): Result<(string, seq<Pending>), Error>
  {
    var s :- if O.has(line, "@") then Substitute(O, t, 0, line, pending) else Ok((line, pending));
    if |s.1| > 0 then
      var c :- Consume(O, t, s.1, 0, s.0, []);
      Ok((c.0, Kept(s.1, c.1, 0)))
    else Ok(s)
  }

  /** The loop of `replace_variable_values` from line `i` on: the new
      lines. */
  function Rewrite(O: Ops, t: Table, lines: seq<string>, i: nat, pending: seq<Pending>)
    : Result<seq<string>, Error>
    requires i <= |lines|
    decreases |lines| - i
  {
    if i == |lines| then Ok([])
    else
      var s :- LineStep(O, t, lines[i], pending);
      var rest :- Rewrite(O, t, lines, i + 1, s.1);
      Ok([s.0] + rest)
  }

  /** `replace_variable_values(content, variables)`. */
  function Replace(content: string, t: Table): Result<string, Error> {
    var ls :- Rewrite(Source, t, Split(content, '\n'), 0, []);
    Ok(Join(ls, "\n"))
  }

  // ---------------------------------------------------------------------
  // What the substitution promises

  /** Every line is rewritten in place: one new line per line. */
  lemma {:induction false} RewriteLength(O: Ops, t: Table, lines: seq<string>, i: nat, pending: seq<Pending>)
    requires i <= |lines| && Rewrite(O, t, lines, i, pending).Ok?
    ensures |Rewrite(O, t, lines, i, pending).value| == |lines| - i
    decreases |lines| - i
  {
    if i < |lines| {
      var s := LineStep(O, t, lines[i], pending).value;
      RewriteLength(O, t, lines, i + 1, s.1);
    }
  }

  lemma ReplaceKeepsLineCount(content: string, t: Table)
    requires Replace(content, t).Ok?
    ensures var ls := Rewrite(Source, t, Split(content, '\n'), 0, []).value;
      |ls| == |Split(content, '\n')| && Replace(content, t).value == Join(ls, "\n")
  {
    RewriteLength(Source, t, Split(content, '\n'), 0, []);
  }

  /** With no variables there is nothing to replace and no note. */
  lemma {:induction false} RewriteNothing(O: Ops, lines: seq<string>, i: nat)
    requires i <= |lines|
    ensures Rewrite(O, [], lines, i, []) == Ok(lines[i..])
    decreases |lines| - i
  {
    if i < |lines| {
      RewriteNothing(O, lines, i + 1);
      assert lines[i..] == [lines[i]] + lines[i + 1..];
    } else {
      assert lines[i..] == [];
    }
  }

  lemma ReplaceNoVariables(content: string)
    ensures Replace(content, []) == Ok(content)
  {
    RewriteNothing(Source, Split(content, '\n'), 0);
    assert Split(content, '\n')[0..] == Split(content, '\n');
    JoinSplit(content, '\n');
  }

  lemma ReplaceEmpty(t: Table)
    ensures Replace("", t) == Ok("")
  {
    assert Split("", '\n') == [""];
    assert !Source.has("", "@");
    assert LineStep(Source, t, "", []) == Ok(("", []));
    assert Rewrite(Source, t, [""], 1, []) == Ok([]);
    assert [""] + [] == [""];
    assert Rewrite(Source, t, [""], 0, []) == Ok([""]);
  }

  /** The reference reading of the substitution: each variable in table
      order has its markers replaced. */
  function ReplaceEach(O: Ops, line: string, t: Table): string
    decreases |t|
  {
    if t == [] then line else ReplaceEach(O, O.replace(line, Marker(t[0].0), t[0].1), t[1..])
  }

  /** The line is not a comment before, and stays so after, each
      substitution of the reference reading. */
  predicate StaysCode(O: Ops, line: string, t: Table)
    decreases |t|
  {
    !O.comment(line) && (t != [] ==> StaysCode(O, O.replace(line, Marker(t[0].0), t[0].1), t[1..]))
  }

  /** On a line that is not a comment, every marker is replaced by its
      value, variable by variable in table order, and no note is queued. */
  lemma {:induction false} SubstituteCode(O: Ops, t: Table, k: nat, line: string, pending: seq<Pending>)
    requires Lawful(O) && k <= |t| && StaysCode(O, line, t[k..])
    ensures Substitute(O, t, k, line, pending) == Ok((ReplaceEach(O, line, t[k..]), pending))
    decreases |t| - k
  {
    if k < |t| {
      var name := Marker(t[k].0);
      assert t[k..][0] == t[k] && t[k..][1..] == t[k + 1..];
      var l := O.replace(line, name, t[k].1);
      SubstituteCode(O, t, k + 1, l, pending);
    }
  }

  /** The notes a comment line queues from variable `k` on: one for each
      variable it names, in table order. */
  function Queued(O: Ops, t: Table, k: nat, line: string): seq<Pending>
    requires k <= |t|
    decreases |t| - k
  {
    if k == |t| then []
    else
      var parts := O.quotes(line);
      var here := if O.has(line, Marker(t[k].0)) && |parts| >= 4 then [Pending(t[k].0, parts[3], parts[1])] else [];
      here + Queued(O, t, k + 1, line)
  }

  /** Some variable from `k` on is named on the line. */
  predicate NamesSome(O: Ops, t: Table, k: nat, line: string)
    requires k <= |t|
  {
    exists j :: k <= j < |t| && O.has(line, Marker(t[j].0))
  }

  /** The substitution leaves a comment line as it is: it only queues a
      note for each variable the line names, and fails when the line names
      one but has fewer than three `"`. */
  lemma {:induction false} SubstituteComment(O: Ops, t: Table, k: nat, line: string, pending: seq<Pending>)
    requires k <= |t| && O.comment(line)
    ensures Substitute(O, t, k, line, pending) ==
      if NamesSome(O, t, k, line) && |O.quotes(line)| < 4 then Err(IndexError)
      else Ok((line, pending + Queued(O, t, k, line)))
    decreases |t| - k
  {
    if k < |t| {
      var parts := O.quotes(line);
      if O.has(line, Marker(t[k].0)) {
        assert NamesSome(O, t, k, line);
        if |parts| >= 4 {
          var q := pending + [Pending(t[k].0, parts[3], parts[1])];
          SubstituteComment(O, t, k + 1, line, q);
          assert q + Queued(O, t, k + 1, line) == pending + Queued(O, t, k, line);
        }
      } else {
        SubstituteComment(O, t, k + 1, line, pending);
        if NamesSome(O, t, k, line) {
          var j :| k <= j < |t| && O.has(line, Marker(t[j].0));
          assert j != k;
          assert NamesSome(O, t, k + 1, line);
        }
        if NamesSome(O, t, k + 1, line) {
          var j :| k + 1 <= j < |t| && O.has(line, Marker(t[j].0));
          assert NamesSome(O, t, k, line);
        }
        assert Queued(O, t, k, line) == [] + Queued(O, t, k + 1, line);
        assert pending + Queued(O, t, k, line) == pending + Queued(O, t, k + 1, line);
      }
    } else {
      assert pending + [] == pending;
    }
  }

  /** Notes whose fields a line does not set leave it alone and stay. */
  lemma {:induction false} ConsumeNothing(O: Ops, t: Table, pending: seq<Pending>, n: nat, line: string, remove: seq<nat>)
    requires n <= |pending| && forall x :: n <= x < |pending| ==> !O.sets(line, pending[x].field)
    ensures Consume(O, t, pending, n, line, remove) == Ok((line, remove))
    decreases |pending| - n
  {
    if n < |pending| {
      ConsumeNothing(O, t, pending, n + 1, line, remove);
    }
  }

  /** A comment line comes out as it went in, as long as it sets none of
      the fields the waiting notes and its own notes name. */
  lemma CommentLineKept(O: Ops, t: Table, line: string, pending: seq<Pending>)
    requires O.comment(line) && LineStep(O, t, line, pending).Ok?
    requires forall x :: 0 <= x < |pending| ==> !O.sets(line, pending[x].field)
    requires forall x :: 0 <= x < |Queued(O, t, 0, line)| ==> !O.sets(line, Queued(O, t, 0, line)[x].field)
    ensures LineStep(O, t, line, pending).value.0 == line
  {
    SubstituteComment(O, t, 0, line, pending);
    var s := if O.has(line, "@") then Substitute(O, t, 0, line, pending).value else (line, pending);
    assert s.0 == line;
    forall x | 0 <= x < |s.1|
      ensures !O.sets(line, s.1[x].field)
    {
      if x >= |pending| {
        assert s.1[x] == Queued(O, t, 0, line)[x - |pending|];
      }
    }
    if |s.1| > 0 {
      ConsumeNothing(O, t, s.1, 0, line, []);
    }
  }

  /** The script's field pattern cannot match a comment line unless the
      field itself starts with `#` or a space. */
  predicate PlainField(field: string) {
    field == [] || (field[0] != '#' && !IsSpace(field[0]))
  }

  /** Everything before the end of a blank run is blank. */
  lemma {:induction false} BlanksBefore(s: string, j: nat)
    requires j <= |s|
    ensures forall i :: j <= i < BlankRunEnd(s, j) ==> IsBlank(s[i])
    decreases |s| - j
  {
    if j < |s| && IsBlank(s[j]) {
      BlanksBefore(s, j + 1);
    }
  }

  /** A blank run ends in the same place from any point inside it. */
  lemma {:induction false} BlankRunInside(s: string, j: nat, a: nat)
    requires j <= |s| && j <= a <= BlankRunEnd(s, j)
    ensures BlankRunEnd(s, a) == BlankRunEnd(s, j)
    decreases a - j
  {
    if j < a {
      BlankRunInside(s, j + 1, a);
    }
  }

  /** Where a comment line's `#` is: every character before it is a
      space. */
  lemma CommentHash(line: string) returns (h: nat)
    requires IsComment(line)
    ensures h < |line| && line[h] == '#' && forall i :: 0 <= i < h ==> IsSpace(line[i])
  {
    StripFirst(line);
    var l := LStrip(line);
    h := |line| - |l|;
    assert line[h] == l[0];
    assert forall i :: 0 <= i < h ==> line[i] == line[..h][i];
  }

  /** On a comment line, the first character that is not a blank is the
      `#` or a space. */
  lemma CommentFirstNonBlank(line: string, x: nat)
    requires IsComment(line) && x < |line| && forall i :: 0 <= i < x ==> IsBlank(line[i])
    ensures line[x] == '#' || IsSpace(line[x])
  {
    var h := CommentHash(line);
  }

  /** Where the field pattern matches: the field starts within the
      leading blanks, and blanks and a colon follow it. */
  lemma FieldAtWitness(line: string, field: string) returns (a: nat)
    requires FieldAt(line, field)
    ensures a <= BlankRunEnd(line, 0) && At(line, a, field)
    ensures At(line, BlankRunEnd(line, a + |field|), ":")
  {
    a := FirstAt(0, BlankRunEnd(line, 0), (a: nat) =>
      At(line, a, field) && At(line, BlankRunEnd(line, a + |field|), ":")).value;
  }

  /** On a comment line no colon follows the leading blanks. */
  lemma CommentNoColon(line: string, a: nat)
    requires IsComment(line) && a <= BlankRunEnd(line, 0)
    ensures !At(line, BlankRunEnd(line, a), ":")
  {
    var b := BlankRunEnd(line, a);
    BlankRunInside(line, 0, a);
    BlanksBefore(line, 0);
    assert !IsSpace(':');
    if At(line, b, ":") {
      assert line[b] == line[b..b + 1][0] == ':';
      CommentFirstNonBlank(line, b);
    }
  }

  /** On a comment line a plain field cannot follow the leading blanks. */
  lemma CommentNoPlainField(line: string, field: string, a: nat)
    requires IsComment(line) && field != [] && field[0] != '#' && !IsSpace(field[0])
    requires a <= BlankRunEnd(line, 0)
    ensures !At(line, a, field)
  {
    BlanksBefore(line, 0);
    if At(line, a, field) {
      assert line[a] == field[0];
      CommentFirstNonBlank(line, a);
    }
  }

  lemma CommentSetsNoField(line: string, field: string)
    requires IsComment(line) && PlainField(field)
    ensures !FieldAt(line, field)
  {
    if FieldAt(line, field) {
      var a := FieldAtWitness(line, field);
      if field == [] {
        CommentNoColon(line, a);
      } else {
        CommentNoPlainField(line, field, a);
      }
    }
  }

  /** For the script's own operations: a comment line comes out as it
      went in, as long as no note names a field starting with `#` or a
      space. */
  lemma SourceCommentLineKept(t: Table, line: string, pending: seq<Pending>)
    requires IsComment(line) && LineStep(Source, t, line, pending).Ok?
    requires forall x :: 0 <= x < |pending| ==> PlainField(pending[x].field)
    requires forall x :: 0 <= x < |Queued(Source, t, 0, line)| ==> PlainField(Queued(Source, t, 0, line)[x].field)
    ensures LineStep(Source, t, line, pending).value.0 == line
  {
    forall f | PlainField(f)
      ensures !FieldAt(line, f)
    {
      CommentSetsNoField(line, f);
    }
    CommentLineKept(Source, t, line, pending);
  }

  /** A note is consumed at most once: the indices to remove are distinct,
      ascending and in range, so exactly that many notes leave the list and
      every other note stays. */
  lemma ConsumeOnce(O: Ops, t: Table, pending: seq<Pending>, line: string)
    requires Consume(O, t, pending, 0, line, []).Ok?
    ensures var rm := Consume(O, t, pending, 0, line, []).value.1;
      Ascending(rm) && (forall x :: 0 <= x < |rm| ==> rm[x] < |pending|)
      && |Kept(pending, rm, 0)| == |pending| - |rm|
      && (forall x :: 0 <= x < |pending| && x !in rm ==> pending[x] in Kept(pending, rm, 0))
  {
    var rm := Consume(O, t, pending, 0, line, []).value.1;
    KeptLength(pending, rm);
    forall x | 0 <= x < |pending| && x !in rm
      ensures pending[x] in Kept(pending, rm, 0)
    {
      KeptSkips(pending, rm, 0, x);
    }
  }

  /** A note's field is set on a line with no marker: its old value is
      replaced by the variable's value and the note is gone. */
  lemma NoteConsumed(O: Ops, t: Table, line: string, note: Pending, value: string)
    requires !O.has(line, "@") && O.sets(line, note.field)
    requires Lookup(t, note.name) == Some(value)
    ensures LineStep(O, t, line, [note]) == Ok((O.replace(line, note.value, value), []))
  {
    var l := O.replace(line, note.value, value);
    assert [note][0] == note && [] + [0] == [0];
    assert Consume(O, t, [note], 0, line, []) == Consume(O, t, [note], 1, l, [0]) == Ok((l, [0]));
    assert 0 in [0];
    assert Kept([note], [0], 0) == [] + Kept([note], [0], 1) == [];
  }

  /** Every note names a variable of the table. */
  predicate Known(t: Table, pending: seq<Pending>) {
    forall x :: 0 <= x < |pending| ==> pending[x].name in Keys(t)
  }

  /** Kept notes are some of the notes. */
  lemma {:induction false} KeptKnown(t: Table, pending: seq<Pending>, rm: seq<nat>, j: nat)
    requires j <= |pending| && forall x :: j <= x < |pending| ==> pending[x].name in Keys(t)
    ensures Known(t, Kept(pending, rm, j))
    decreases |pending| - j
  {
    if j < |pending| {
      KeptKnown(t, pending, rm, j + 1);
    }
  }

  /** A line keeps every note naming a variable of the table. */
  lemma LineStepKnown(O: Ops, t: Table, line: string, pending: seq<Pending>)
    requires Known(t, pending)
    ensures LineStep(O, t, line, pending).Err? ==> LineStep(O, t, line, pending).error == IndexError
    ensures LineStep(O, t, line, pending).Ok? ==> Known(t, LineStep(O, t, line, pending).value.1)
  {
    var s := if O.has(line, "@") then Substitute(O, t, 0, line, pending) else Ok((line, pending));
    if s.Ok? {
      var p := s.value.1;
      forall x | 0 <= x < |p|
        ensures p[x].name in Keys(t)
      {
        if x < |pending| {
          assert p[x] == p[..|pending|][x];
        }
      }
      if |p| > 0 {
        var c := Consume(O, t, p, 0, s.value.0, []);
        if c.Ok? {
          KeptKnown(t, p, c.value.1, 0);
        }
      }
    }
  }

  lemma {:induction false} RewriteNoKeyError(O: Ops, t: Table, lines: seq<string>, i: nat, pending: seq<Pending>)
    requires i <= |lines| && Known(t, pending)
    ensures Rewrite(O, t, lines, i, pending).Err? ==> Rewrite(O, t, lines, i, pending).error == IndexError
    decreases |lines| - i
  {
    if i < |lines| {
      LineStepKnown(O, t, lines[i], pending);
      var s := LineStep(O, t, lines[i], pending);
      if s.Ok? {
        RewriteNoKeyError(O, t, lines, i + 1, s.value.1);
      }
    }
  }

  /** The only way the substitution fails is a note line with fewer than
      three `"`: a note always names a variable of the table. */
  lemma ReplaceNoKeyError(content: string, t: Table)
    ensures Replace(content, t).Err? ==> Replace(content, t).error == IndexError
  {
    RewriteNoKeyError(Source, t, Split(content, '\n'), 0, []);
  }

  // ---------------------------------------------------------------------
  // The loops as the source runs them

  /** The loop over the variables for one line. */
  method SubstituteLine(O: Ops, t: Table, line: string, pending: seq<Pending>)
    returns (r: Result<(string, seq<Pending>), Error>)
    ensures r == Substitute(O, t, 0, line, pending)
  {
    var l := line;
    var notes := pending;
    for k := 0 to |t|
      invariant Substitute(O, t, k, l, notes) == Substitute(O, t, 0, line, pending)
    {
      var name := Marker(t[k].0);
      if O.has(l, name) && !O.comment(l) {
        l := O.replace(l, name, t[k].1);
      }
      if O.has(l, name) && O.comment(l) {
        var parts := O.quotes(l);
        if |parts| < 4 {
          return Err(IndexError);
        }
        notes := notes + [Pending(t[k].0, parts[3], parts[1])];
      }
    }
    return Ok((l, notes));
  }

  /** The loop over the notes for one line, then `del old[r]` for the
      matched notes, the largest index first. */
  method ConsumeLine(O: Ops, t: Table, pending: seq<Pending>, line: string)
    returns (r: Result<(string, seq<Pending>), Error>)
    ensures Consume(O, t, pending, 0, line, []).Err? ==> r == Err(Consume(O, t, pending, 0, line, []).error)
    ensures Consume(O, t, pending, 0, line, []).Ok? ==>
      var c := Consume(O, t, pending, 0, line, []).value;
      r == Ok((c.0, Kept(pending, c.1, 0)))
  {
    var l := line;
    var remove: seq<nat> := [];
    for n := 0 to |pending|
      invariant Consume(O, t, pending, n, l, remove) == Consume(O, t, pending, 0, line, [])
      invariant Ascending(remove) && forall x :: 0 <= x < |remove| ==> remove[x] < n
    {
      if O.sets(l, pending[n].field) {
        var value := Lookup(t, pending[n].name);
        if value.None? {
          return Err(KeyError);
        }
        l := O.replace(l, pending[n].value, value.value);
        remove := remove + [n];
      }
    }
    var kept := DeleteAt(pending, remove);
    return Ok((l, kept));
  }

  /** The lines `done` placed before the rest of a run. */
  function Glue(done: seq<string>, rest: Result<seq<string>, Error>): Result<seq<string>, Error> {
    if rest.Ok? then Ok(done + rest.value) else rest
  }

  lemma GlueStep(done: seq<string>, line: string, rest: Result<seq<string>, Error>)
    ensures Glue(done, Glue([line], rest)) == Glue(done + [line], rest)
  {
    if rest.Ok? {
      assert done + ([line] + rest.value) == done + [line] + rest.value;
    }
  }

  /** The body of the loop over the lines: the variables of one line, then
      the notes that line may settle. */
  method RewriteLine(O: Ops, t: Table, line: string, pending: seq<Pending>)
    returns (r: Result<(string, seq<Pending>), Error>)
    ensures r == LineStep(O, t, line, pending)
  {
    var l, notes := line, pending;
    if O.has(line, "@") {
      var s := SubstituteLine(O, t, line, pending);
      if s.Err? {
        return Err(s.error);
      }
      l, notes := s.value.0, s.value.1;
    }
    if |notes| > 0 {
      var c := ConsumeLine(O, t, notes, l);
      if c.Err? {
        return Err(c.error);
      }
      l, notes := c.value.0, c.value.1;
    }
    return Ok((l, notes));
  }

  /** One line of the run: it fails as the line does, or puts the line's
      text in front of the rest. */
  lemma RewriteAt(O: Ops, t: Table, lines: seq<string>, i: nat, pending: seq<Pending>,
                  step: Result<(string, seq<Pending>), Error>)
    requires i < |lines| && LineStep(O, t, lines[i], pending) == step
    ensures step.Err? ==> Rewrite(O, t, lines, i, pending) == Err(step.error)
    ensures step.Ok? ==>
      Rewrite(O, t, lines, i, pending) == Glue([step.value.0], Rewrite(O, t, lines, i + 1, step.value.1))
  {
  }

  /** The loop over the lines of `replace_variable_values`. */
  method RewriteLines(O: Ops, t: Table, input: seq<string>) returns (r: Result<seq<string>, Error>)
    ensures r == Rewrite(O, t, input, 0, [])
  {
    var lines := input;
    var notes: seq<Pending> := [];
    ghost var whole := Rewrite(O, t, input, 0, []);
    if whole.Ok? {
      assert [] + whole.value == whole.value;
    }
    assert lines[..0] == [];
    for i := 0 to |lines|
      invariant |lines| == |input| && lines[i..] == input[i..]
      invariant Rewrite(O, t, input, 0, []) == Glue(lines[..i], Rewrite(O, t, input, i, notes))
    {
      assert lines[i] == input[i];
      var s := RewriteLine(O, t, lines[i], notes);
      RewriteAt(O, t, input, i, notes, s);
      if s.Err? {
        return Err(s.error);
      }
      GlueStep(lines[..i], s.value.0, Rewrite(O, t, input, i + 1, s.value.1));
      lines, notes := lines[i := s.value.0], s.value.1;
      assert lines[..i + 1] == lines[..i] + [s.value.0];
    }
    assert lines[..|lines|] == lines && lines + [] == lines;
    return Ok(lines);
  }

  /** `replace_variable_values` as the source runs it. */
  method ReplaceVariableValues(content: string, t: Table) returns (r: Result<string, Error>)
    ensures r == Replace(content, t)
  {
    var lines := RewriteLines(Source, t, Split(content, '\n'));
    if lines.Err? {
      return Err(lines.error);
    }
    return Ok(Join(lines.value, "\n"));
  }
}
