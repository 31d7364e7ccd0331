/** `convert_audit` of the database audit migrator
    (`db_audit_migrate/db_audit_migrate.py`): one pass over an audit's lines
    that retypes the header, marks the group policy tags for deletion,
    comments out the fields the database plugins do not know, and rewrites
    each item's `sql_types` and `sql_expect` from its expected values.

    The pass is stated over the recognisers it consults (`Rules`), so what
    is proved about it holds whatever the patterns decide; `Source` holds
    the migrator's own recognisers, and the method `ConvertAudit` runs the
    pass with them. */
module DbAuditConvert {
  import opened Wrappers
  import opened Text
  import SqlUtil
  import DbAuditMigrate
  import Dicts
  import opened Lists

  // ---------------------------------------------------------------------
  // Lines and what the pass reports

  /** The branch of the loop a line takes; the branches are tried in this
      order and the first pattern that matches wins. */
  datatype LineKind =
    | Header                       // db_type_re
    | GroupPolicy                  // group_policy_re
    | SqlField(name: string)       // sql_field_re, with the field it sets
    | OpenItem                     // open_item_re
    | CloseItem                    // close_item_re
    | QuotedField(name: string)    // simple_quoted_field_re, with the key
    | UnquotedField(name: string)  // simple_unquoted_field_re, with the key
    | Other

  /** The key of a `key: value` line: the text before its first colon,
      stripped. */
  function FieldName(line: string): string {
    Strip(Split(line, ':')[0])
  }

  /** The if/elif chain of the loop. */
  function Classify(line: string): (r: LineKind)
    ensures r.Header? <==> DbAuditMigrate.DbTypeRe(line).Some?
    ensures r.SqlField? ==> r.name in {"sql_request", "sql_types", "sql_expect"}
    ensures r.QuotedField? || r.UnquotedField? ==> r.name == FieldName(line)
  {
    if DbAuditMigrate.DbTypeRe(line).Some? then Header
    else if DbAuditMigrate.GroupPolicyRe(line) then GroupPolicy
    else if DbAuditMigrate.SqlFieldRe(line).Some? then SqlField(DbAuditMigrate.SqlFieldRe(line).value)
    else if DbAuditMigrate.OpenItemRe(line) then OpenItem
    else if DbAuditMigrate.CloseItemRe(line) then CloseItem
    else if DbAuditMigrate.QuotedFieldRe(line) then QuotedField(FieldName(line))
    else if DbAuditMigrate.UnquotedFieldRe(line) then UnquotedField(FieldName(line))
    else Other
  }

  /** The quoted fields the database plugins accept. */
  const QuotedKept: set<string> := {"sql_request", "info", "solution", "description", "see_also", "reference"}

  /** The unquoted fields the database plugins accept. */
  const UnquotedKept: set<string> := {"type", "num_rows", "severity"}

  /** The warnings the pass displays. Line numbers count from one, except in
      `ColumnMismatch`, which reports the index of the `sql_request` line as
      the source prints it. */
  datatype Warning =
    | ReopenedItem(line: nat)
    | StrayClose(line: nat)
    | MissingSqlFields(line: nat)
    | ColumnMismatch(request: nat, computed: nat, columns: nat)
    | QuotedFieldOff(line: nat, name: string)
    | UnquotedFieldOff(line: nat, name: string)

  // ---------------------------------------------------------------------
  // The recognisers the pass consults

  datatype Rules = Rules(
    classify: string -> LineKind,                                    // the if/elif chain
    retype: string -> string,                                        // update_check_type
    prefix: string -> Option<string>,                                // field_replace_re's group
    compute: string -> Result<seq<(string, string)>, SqlUtil.Error>, // parse_expect, then compute_type_and_expect on each slot
    select: string -> Option<string>)                                // select_re's group

  /** The results of `f` on every element, in order, or the first failure. */
  function MapResult<A(==), B(==), E(==)>(xs: seq<A>, f: A -> Result<B, E>): (r: Result<seq<B>, E>)
    ensures r.Ok? ==> |r.value| == |xs| && forall k :: 0 <= k < |xs| ==> f(xs[k]) == Ok(r.value[k])
    ensures r.Err? ==> exists k :: 0 <= k < |xs| && f(xs[k]) == Err(r.error) && forall j :: 0 <= j < k ==> f(xs[j]).Ok?
  {
    if xs == [] then Ok([])
    else
      match f(xs[0])
      case Err(e) => Err(e)
      case Ok(y) =>
        match MapResult(xs[1..], f)
        case Err(e) =>
          var k :| 0 <= k < |xs[1..]| && f(xs[1..][k]) == Err(e) && forall j :: 0 <= j < k ==> f(xs[1..][j]).Ok?;
          assert f(xs[k + 1]) == Err(e);
          assert forall j :: 0 < j < k + 1 ==> xs[j] == xs[1..][j - 1];
          Err(e)
        case Ok(ys) => Ok([y] + ys)
  }

  /** The slots of an expect value, each collapsed into a type and an
      expect text. */
  function ComputeAll(ev: string): Result<seq<(string, string)>, SqlUtil.Error> {
    var slots :- SqlUtil.ParseSpec(ev);
    MapResult(slots, SqlUtil.Collapse)
  }

  /** The migrator's own recognisers. */
  const Source: Rules :=
    Rules(Classify, DbAuditMigrate.UpdateCheckType, DbAuditMigrate.FieldReplaceRe, ComputeAll, DbAuditMigrate.SelectRe)

  // ---------------------------------------------------------------------
  // The state of the loop and one step of it

  datatype State = State(
    lines: seq<string>,
    del: seq<nat>,            // del_lines
    sqlRequest: Option<nat>,  // sql_request
    sqlTypes: Option<nat>,    // sql_types
    sqlExpect: Option<nat>,   // sql_expect
    inItem: bool,             // in_item
    warnings: seq<Warning>)

  predicate Before(o: Option<nat>, i: nat) { o.Some? ==> o.value < i }

  /** What holds before line `i` is visited: every recorded line is an
      earlier one, the `sql_types` and `sql_expect` lines are different
      lines, and the lines to delete are listed in order. */
  predicate Valid(st: State, i: nat) {
    i <= |st.lines| && Before(st.sqlRequest, i) && Before(st.sqlTypes, i) && Before(st.sqlExpect, i)
    && (st.sqlTypes.Some? && st.sqlExpect.Some? ==> st.sqlTypes != st.sqlExpect)
    && Ascending(st.del) && forall k :: 0 <= k < |st.del| ==> st.del[k] < i
  }

  function Init(lines: seq<string>): (st: State)
    ensures Valid(st, 0)
  {
    State(lines, [], None, None, None, false, [])
  }

  /** The value of a `key: value` line: everything after its first colon. */
  function AfterColon(line: string): string {
    Join(Split(line, ':')[1..], ":")
  }

  /** The `sql_request` value with its spaces and quotes stripped. */
  function RequestValue(line: string): string {
    StripChars(AfterColon(line), {' ', '\'', '"'})
  }

  function Seconds(cs: seq<(string, string)>): (r: seq<string>)
    ensures |r| == |cs| && forall k :: 0 <= k < |cs| ==> r[k] == cs[k].1
  {
    if cs == [] then [] else [cs[0].1] + Seconds(cs[1..])
  }

  /** `findall(...)[0]`: the first match, or the IndexError when there is
      none. */
  function First(m: Option<string>): (r: Result<string, SqlUtil.Error>)
    ensures r.Ok? <==> m.Some?
    ensures r.Ok? ==> r.value == m.value
    ensures r.Err? ==> r.error == SqlUtil.IndexError
  {
    match m
    case None => Err(SqlUtil.IndexError)
    case Some(v) => Ok(v)
  }

  /** The column check against the `sql_request` line `q`: a warning when
      more than one value was computed and the select names a different
      number of columns. */
  function ColumnCheck(R: Rules, lines: seq<string>, request: Option<nat>, n: nat): (w: seq<Warning>)
    requires Before(request, |lines|)
    ensures |w| <= 1
  {
    match request
    case None => []
    case Some(q) =>
      match R.select(RequestValue(lines[q]))
      case None => []
      case Some(g) =>
        var columns := StripAll(Split(g, ','));
        if n > 1 && n != |columns| then [ColumnMismatch(q, n, |columns|)] else []
  }

  /** The close of an item whose `sql_types` line `t` and `sql_expect` line
      `e` were both seen: both are rewritten from the expect value, then the
      select of the `sql_request` line is checked. Gives the new lines and
      the warnings to add. */
  function Rewrite(R: Rules, lines: seq<string>, t: nat, e: nat, request: Option<nat>)
    : (r: Result<(seq<string>, seq<Warning>), SqlUtil.Error>)
    requires t < |lines| && e < |lines| && Before(request, |lines|)
    ensures r.Ok? ==> |r.value.0| == |lines|
    ensures r.Ok? ==> forall k :: 0 <= k < |lines| && k != t && k != e ==> r.value.0[k] == lines[k]
  {
    var computed :- R.compute(AfterColon(lines[e]));
    var tp :- First(R.prefix(lines[t]));
    var lines1 := lines[t := tp + Join(Dicts.Keys(computed), ", ")];
    var ep :- First(R.prefix(lines1[e]));
    var lines2 := lines1[e := ep + Join(Seconds(computed), ", ")];
    Ok((lines2, ColumnCheck(R, lines2, request, |computed|)))
  }

  /** One turn of the loop, at line `i`. */
  function Step(R: Rules, st: State, i: nat): (r: Result<State, SqlUtil.Error>)
    requires Valid(st, i) && i < |st.lines|
    ensures r.Ok? ==> Valid(r.value, i + 1) && |r.value.lines| == |st.lines|
    ensures r.Ok? ==> r.value.lines[i + 1..] == st.lines[i + 1..]
    ensures r.Ok? ==> r.value.del == st.del + if R.classify(st.lines[i]).GroupPolicy? then [i] else []
  {
    var line := st.lines[i];
    match R.classify(line)
    case Header => Ok(st.(lines := st.lines[i := R.retype(line)]))
    case GroupPolicy => Ok(st.(del := st.del + [i]))
    case SqlField(name) =>
      if name == "sql_expect" then Ok(st.(sqlExpect := Some(i)))
      else if name == "sql_types" then Ok(st.(sqlTypes := Some(i)))
      else if name == "sql_request" then Ok(st.(sqlRequest := Some(i)))
      else Ok(st)
    case OpenItem =>
      Ok(st.(inItem := true, warnings := if st.inItem then st.warnings + [ReopenedItem(i + 1)] else st.warnings))
    case CloseItem =>
      var w := if st.inItem then st.warnings else st.warnings + [StrayClose(i + 1)];
      var closed :-
        if st.sqlTypes.None? || st.sqlExpect.None? then Ok((st.lines, w + [MissingSqlFields(i + 1)]))
        else
          var rw :- Rewrite(R, st.lines, st.sqlTypes.value, st.sqlExpect.value, st.sqlRequest);
          Ok((rw.0, w + rw.1));
      Ok(st.(lines := closed.0, warnings := closed.1, sqlTypes := None, sqlExpect := None, inItem := false))
    case QuotedField(name) =>
      if name in QuotedKept then Ok(st)
      else Ok(st.(lines := st.lines[i := "#" + line], warnings := st.warnings + [QuotedFieldOff(i + 1, name)]))
    case UnquotedField(name) =>
      if name in UnquotedKept then Ok(st)
      else Ok(st.(lines := st.lines[i := "#" + line], warnings := st.warnings + [UnquotedFieldOff(i + 1, name)]))
    case Other => Ok(st)
  }

  /** The loop from line `i` to the end. */
  function Run(R: Rules, st: State, i: nat): Result<State, SqlUtil.Error>
    requires Valid(st, i)
    decreases |st.lines| - i
  {
    if i == |st.lines| then Ok(st)
    else
      var next :- Step(R, st, i);
      Run(R, next, i + 1)
  }

  /** The loop over an audit's lines and the deletion of the group policy
      lines: the new lines and the warnings. */
  function ConvertLines(R: Rules, lines: seq<string>): Result<(seq<string>, seq<Warning>), SqlUtil.Error> {
    var f :- Run(R, Init(lines), 0);
    Ok((Kept(f.lines, f.del, 0), f.warnings))
  }

  /** `convert_audit` on a file read as the lines `raw`: None when the audit
      is not supported, otherwise the new audit text and the warnings. */
  function Convert(raw: seq<string>): Result<Option<(string, seq<Warning>)>, SqlUtil.Error> {
    match DbAuditMigrate.AuditLines(raw)
    case None => Ok(None)
    case Some(lines) =>
      var c :- ConvertLines(Source, lines);
      Ok(Some((Join(c.0, "\n"), c.1)))
  }

  // ---------------------------------------------------------------------
  // Properties of one step

  /** Only line `i` and the item's recorded `sql_types` and `sql_expect`
      lines can change. */
  lemma StepFrame(R: Rules, st: State, i: nat, k: nat)
    requires Valid(st, i) && i < |st.lines| && Step(R, st, i).Ok?
    requires k < |st.lines| && k != i && st.sqlTypes != Some(k) && st.sqlExpect != Some(k)
    ensures Step(R, st, i).value.lines[k] == st.lines[k]
  {
  }

  /** A field line is commented out exactly when its key is not one the
      database plugins accept, and then one warning names it. */
  lemma StepCommentsOut(R: Rules, st: State, i: nat)
    requires Valid(st, i) && i < |st.lines|
    requires R.classify(st.lines[i]).QuotedField? || R.classify(st.lines[i]).UnquotedField?
    ensures Step(R, st, i).Ok?
    ensures var c := R.classify(st.lines[i]);
      var kept := if c.QuotedField? then QuotedKept else UnquotedKept;
      var f := Step(R, st, i).value;
      (c.name in kept ==> f == st) &&
      (c.name !in kept ==>
        f.lines == st.lines[i := "#" + st.lines[i]] && |f.warnings| == |st.warnings| + 1
        && f.warnings[..|st.warnings|] == st.warnings)
  {
  }

  /** Closing an item forgets its `sql_types` and `sql_expect` lines and
      leaves it closed, but remembers the `sql_request` line. */
  lemma StepCloseResets(R: Rules, st: State, i: nat)
    requires Valid(st, i) && i < |st.lines| && R.classify(st.lines[i]).CloseItem?
    requires Step(R, st, i).Ok?
    ensures var f := Step(R, st, i).value;
      f.sqlTypes.None? && f.sqlExpect.None? && !f.inItem && f.sqlRequest == st.sqlRequest && f.del == st.del
  {
  }

  /** A close without both SQL fields changes no line and ends the
      warnings with `MissingSqlFields`, after `StrayClose` when no item was
      open. */
  lemma StepCloseWithoutFields(R: Rules, st: State, i: nat)
    requires Valid(st, i) && i < |st.lines| && R.classify(st.lines[i]).CloseItem?
    requires st.sqlTypes.None? || st.sqlExpect.None?
    ensures Step(R, st, i).Ok?
    ensures var f := Step(R, st, i).value;
      f.lines == st.lines
      && f.warnings == (if st.inItem then st.warnings else st.warnings + [StrayClose(i + 1)]) + [MissingSqlFields(i + 1)]
  {
  }

  /** A close with both SQL fields rewrites them: each keeps the text its
      `field_replace_re` group covers and gets the computed types, or the
      computed expect texts, joined by `, `. */
  lemma StepCloseRewrites(R: Rules, st: State, i: nat, cs: seq<(string, string)>, tp: string, ep: string)
    requires Valid(st, i) && i < |st.lines| && R.classify(st.lines[i]).CloseItem?
    requires st.sqlTypes.Some? && st.sqlExpect.Some?
    requires R.compute(AfterColon(st.lines[st.sqlExpect.value])) == Ok(cs)
    requires R.prefix(st.lines[st.sqlTypes.value]) == Some(tp)
    requires R.prefix(st.lines[st.sqlExpect.value]) == Some(ep)
    ensures Step(R, st, i).Ok?
    ensures var f := Step(R, st, i).value;
      f.lines[st.sqlTypes.value] == tp + Join(Dicts.Keys(cs), ", ")
      && f.lines[st.sqlExpect.value] == ep + Join(Seconds(cs), ", ")
  {
  }

  /** A close with both SQL fields fails with the expect value's failure,
      and with the IndexError of `findall(...)[0]` when a field has no
      `field_replace_re` group. */
  lemma StepCloseFails(R: Rules, st: State, i: nat)
    requires Valid(st, i) && i < |st.lines| && R.classify(st.lines[i]).CloseItem?
    requires st.sqlTypes.Some? && st.sqlExpect.Some?
    ensures var c := R.compute(AfterColon(st.lines[st.sqlExpect.value]));
      c.Err? ==> Step(R, st, i) == Err(c.error)
    ensures R.compute(AfterColon(st.lines[st.sqlExpect.value])).Ok? && R.prefix(st.lines[st.sqlTypes.value]).None? ==>
      Step(R, st, i) == Err(SqlUtil.IndexError)
  {
  }

  /** The column warning: given when, and only when, more than one value
      was computed and the request's select names a different number of
      columns. */
  lemma ColumnCheckWarns(R: Rules, lines: seq<string>, q: nat, n: nat)
    requires q < |lines|
    ensures ColumnCheck(R, lines, Some(q), n) != [] <==>
      (R.select(RequestValue(lines[q])).Some? && n > 1
       && n != |Split(R.select(RequestValue(lines[q])).value, ',')|)
    ensures ColumnCheck(R, lines, Some(q), n) != [] ==>
      ColumnCheck(R, lines, Some(q), n) == [ColumnMismatch(q, n, |Split(R.select(RequestValue(lines[q])).value, ',')|)]
  {
  }

  /** An opening tag warns exactly when an item is already open. */
  lemma StepOpen(R: Rules, st: State, i: nat)
    requires Valid(st, i) && i < |st.lines| && R.classify(st.lines[i]).OpenItem?
    ensures Step(R, st, i).Ok?
    ensures var f := Step(R, st, i).value;
      f.inItem && f.lines == st.lines
      && f.warnings == if st.inItem then st.warnings + [ReopenedItem(i + 1)] else st.warnings
  {
  }

  /** With the migrator's recognisers, a `db_type` header is retyped: it
      ends with the new check type closed by `">`. */
  lemma SourceRetypesHeader(st: State, i: nat)
    requires Valid(st, i) && i < |st.lines| && DbAuditMigrate.DbTypeRe(st.lines[i]).Some?
    ensures Step(Source, st, i).Ok?
    ensures var nt := DbAuditMigrate.NewType(DbAuditMigrate.DbTypeRe(st.lines[i]).value.1);
      EndsWith(Step(Source, st, i).value.lines[i], nt + "\">")
  {
    assert Source.classify(st.lines[i]) == Header;
  }

  // ---------------------------------------------------------------------
  // Properties of the whole pass

  /** The indices of the lines in `0..n` that `group_policy_re` picks. */
  function GroupLines(R: Rules, lines: seq<string>, n: nat): seq<nat>
    requires n <= |lines|
  {
    if n == 0 then []
    else GroupLines(R, lines, n - 1) + if R.classify(lines[n - 1]).GroupPolicy? then [n - 1] else []
  }

  lemma {:induction false} GroupLinesAre(R: Rules, lines: seq<string>, n: nat)
    requires n <= |lines|
    ensures forall k: nat :: k in GroupLines(R, lines, n) <==> k < n && R.classify(lines[k]).GroupPolicy?
  {
    if n > 0 {
      GroupLinesAre(R, lines, n - 1);
    }
  }

  /** The loop never rewrites a line it has not reached, so each line is
      classified as it was read, and the lines marked for deletion are the
      group policy lines. */
  lemma {:induction false} RunTracks(R: Rules, lines: seq<string>, st: State, i: nat)
    requires Valid(st, i) && |st.lines| == |lines| && st.lines[i..] == lines[i..]
    requires st.del == GroupLines(R, lines, i)
    requires Run(R, st, i).Ok?
    ensures var f := Run(R, st, i).value;
      |f.lines| == |lines| && Valid(f, |lines|) && f.del == GroupLines(R, lines, |lines|)
    decreases |lines| - i
  {
    if i < |lines| {
      assert st.lines[i] == st.lines[i..][0] == lines[i];
      var next := Step(R, st, i).value;
      assert next.lines[i + 1..] == st.lines[i..][1..] == lines[i + 1..];
      RunTracks(R, lines, next, i + 1);
    }
  }

  /** The pass removes exactly the group policy lines: the new audit has
      one line fewer for each of them, and every other line is there. */
  lemma ConvertDropsGroupPolicy(R: Rules, lines: seq<string>)
    requires ConvertLines(R, lines).Ok?
    ensures var f := Run(R, Init(lines), 0).value;
      var g := GroupLines(R, lines, |lines|);
      ConvertLines(R, lines).value.0 == Kept(f.lines, g, 0)
      && |ConvertLines(R, lines).value.0| == |lines| - |g|
      && (forall k :: 0 <= k < |lines| ==> (k in g <==> R.classify(lines[k]).GroupPolicy?))
  {
    RunTracks(R, lines, Init(lines), 0);
    var f := Run(R, Init(lines), 0).value;
    KeptLength(f.lines, f.del);
    GroupLinesAre(R, lines, |lines|);
  }

  // ---------------------------------------------------------------------
  // The loop as the source runs it

  /** `acc` in front of a list of results, or the failure. */
  function Prefixed<B, E>(acc: seq<B>, r: Result<seq<B>, E>): Result<seq<B>, E> {
    match r
    case Ok(v) => Ok(acc + v)
    case Err(e) => Err(e)
  }

  /** One more element taken from the front of the list into `acc`. */
  lemma PrefixedStep<A, B, E>(acc: seq<B>, xs: seq<A>, f: A -> Result<B, E>)
    requires xs != []
    ensures f(xs[0]).Err? ==> Prefixed(acc, MapResult(xs, f)) == Err(f(xs[0]).error)
    ensures f(xs[0]).Ok? ==>
      Prefixed(acc, MapResult(xs, f)) == Prefixed(acc + [f(xs[0]).value], MapResult(xs[1..], f))
  {
    if f(xs[0]).Ok? && MapResult(xs[1..], f).Ok? {
      var y, ys := f(xs[0]).value, MapResult(xs[1..], f).value;
      assert acc + ([y] + ys) == acc + [y] + ys;
    }
  }

  /** The list comprehension of the close branch: `compute_type_and_expect`
      on every slot, failing on the first slot that fails. */
  method CollapseSlots(slots: seq<SqlUtil.Slot>) returns (r: Result<seq<(string, string)>, SqlUtil.Error>)
    ensures r == MapResult(slots, SqlUtil.Collapse)
  {
    var computed: seq<(string, string)> := [];
    assert slots[0..] == slots;
    assert MapResult(slots, SqlUtil.Collapse) == Prefixed(computed, MapResult(slots, SqlUtil.Collapse)) by {
      if MapResult(slots, SqlUtil.Collapse).Ok? {
        assert computed + MapResult(slots, SqlUtil.Collapse).value == MapResult(slots, SqlUtil.Collapse).value;
      }
    }
    for k := 0 to |slots|
      invariant MapResult(slots, SqlUtil.Collapse) == Prefixed(computed, MapResult(slots[k..], SqlUtil.Collapse))
    {
      var c := SqlUtil.ComputeTypeAndExpect(slots[k]);
      assert slots[k..][0] == slots[k] && slots[k..][1..] == slots[k + 1..];
      PrefixedStep(computed, slots[k..], SqlUtil.Collapse);
      if c.Err? {
        return Err(c.error);
      }
      computed := computed + [c.value];
    }
    assert slots[|slots|..] == [] && computed + [] == computed;
    return Ok(computed);
  }

  /** The close branch's `parse_expect` and the comprehension over its
      slots. */
  method ComputeExpected(ev: string) returns (r: Result<seq<(string, string)>, SqlUtil.Error>)
    ensures r == ComputeAll(ev)
  {
    var parsed := SqlUtil.ParseExpect(ev);
    if parsed.Err? {
      return Err(parsed.error);
    }
    r := CollapseSlots(parsed.value);
  }

  /** The close branch once both SQL fields were seen, with the expect
      value's `computed` list given. */
  method RewriteItem(R: Rules, lines: seq<string>, t: nat, e: nat, request: Option<nat>)
    returns (r: Result<(seq<string>, seq<Warning>), SqlUtil.Error>)
    requires t < |lines| && e < |lines| && Before(request, |lines|)
    ensures r == Rewrite(R, lines, t, e, request)
  {
    var computed := R.compute(AfterColon(lines[e]));
    if computed.Err? {
      return Err(computed.error);
    }
    var cs := computed.value;
    var tp := R.prefix(lines[t]);
    if tp.None? {
      return Err(SqlUtil.IndexError);
    }
    var ls := lines[t := tp.value + Join(Dicts.Keys(cs), ", ")];
    var ep := R.prefix(ls[e]);
    if ep.None? {
      return Err(SqlUtil.IndexError);
    }
    ls := ls[e := ep.value + Join(Seconds(cs), ", ")];
    var w: seq<Warning> := [];
    if request.Some? {
      var found := R.select(RequestValue(ls[request.value]));
      if found.Some? {
        var columns := StripAll(Split(found.value, ','));
        if |cs| > 1 && |cs| != |columns| {
          w := [ColumnMismatch(request.value, |cs|, |columns|)];
        }
      }
    }
    return Ok((ls, w));
  }

  /** The close branch: warn about a stray close, rewrite the item's SQL
      fields when both were seen, and forget them. */
  method CloseItemBranch(R: Rules, st: State, i: nat) returns (r: Result<State, SqlUtil.Error>)
    requires Valid(st, i) && i < |st.lines| && R.classify(st.lines[i]).CloseItem?
    ensures r == Step(R, st, i)
  {
    var lines := st.lines;
    var warnings := st.warnings;
    if !st.inItem {
      warnings := warnings + [StrayClose(i + 1)];
    }
    if st.sqlTypes.None? || st.sqlExpect.None? {
      warnings := warnings + [MissingSqlFields(i + 1)];
    } else {
      var rw := RewriteItem(R, lines, st.sqlTypes.value, st.sqlExpect.value, st.sqlRequest);
      if rw.Err? {
        return Err(rw.error);
      }
      lines := rw.value.0;
      warnings := warnings + rw.value.1;
    }
    return Ok(st.(lines := lines, warnings := warnings, sqlTypes := None, sqlExpect := None, inItem := false));
  }

  /** One turn of the loop of `convert_audit`: the if/elif chain on line
      `i`, updating the loop's variables. */
  method VisitLine(R: Rules, st: State, i: nat) returns (r: Result<State, SqlUtil.Error>)
    requires Valid(st, i) && i < |st.lines|
    ensures r == Step(R, st, i)
  {
    var lines, del, warnings := st.lines, st.del, st.warnings;
    var sqlRequest, sqlTypes, sqlExpect, inItem := st.sqlRequest, st.sqlTypes, st.sqlExpect, st.inItem;
    var line := lines[i];
    match R.classify(line) {
      case Header =>
        lines := lines[i := R.retype(line)];
      case GroupPolicy =>
        del := del + [i];
      case SqlField(name) =>
        if name == "sql_expect" {
          sqlExpect := Some(i);
        } else if name == "sql_types" {
          sqlTypes := Some(i);
        } else if name == "sql_request" {
          sqlRequest := Some(i);
        }
      case OpenItem =>
        if inItem {
          warnings := warnings + [ReopenedItem(i + 1)];
        }
        inItem := true;
      case CloseItem =>
        r := CloseItemBranch(R, st, i);
        return;
      case QuotedField(name) =>
        if name !in QuotedKept {
          warnings := warnings + [QuotedFieldOff(i + 1, name)];
          lines := lines[i := "#" + line];
        }
      case UnquotedField(name) =>
        if name !in UnquotedKept {
          warnings := warnings + [UnquotedFieldOff(i + 1, name)];
          lines := lines[i := "#" + line];
        }
      case Other =>
    }
    return Ok(State(lines, del, sqlRequest, sqlTypes, sqlExpect, inItem, warnings));
  }

  /** The loop of `convert_audit` over the lines read, and the deletion
      of the marked lines, with the recognisers `R`. */
  method ConvertLinesWith(R: Rules, input: seq<string>) returns (r: Result<(seq<string>, seq<Warning>), SqlUtil.Error>)
    ensures r == ConvertLines(R, input)
  {
    var st := Init(input);
    for i := 0 to |input|
      invariant |st.lines| == |input| && Valid(st, i)
      invariant Run(R, st, i) == Run(R, Init(input), 0)
    {
      var next := VisitLine(R, st, i);
      if next.Err? {
        return Err(next.error);
      }
      st := next.value;
    }
    var lines := st.lines;
    if |st.del| > 0 {
      lines := DeleteAt(lines, st.del);
    } else {
      assert lines == Kept(lines, st.del, 0) by { KeptGap(lines, st.del, 0, |lines|); }
    }
    return Ok((lines, st.warnings));
  }

  /** `convert_audit`: read the audit, convert its lines, join them. */
  method ConvertAudit(raw: seq<string>) returns (r: Result<Option<(string, seq<Warning>)>, SqlUtil.Error>)
    ensures r == Convert(raw)
  {
    var lines := DbAuditMigrate.ReadAuditLines(raw);
    if lines.None? {
      return Ok(None);
    }
    var c := ConvertLinesWith(Source, lines.value);
    if c.Err? {
      return Err(c.error);
    }
    return Ok(Some((Join(c.value.0, "\n"), c.value.1)));
  }
}
