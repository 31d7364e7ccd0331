/** The baseline audit builder (`baseline/create_baseline_audit.py`): for
    every scanned host, a copy of an audit with the value the host reported
    for each item written in as its `known_good`, and, when a reference name
    is given, a reference entry that says whether the host deviated. */
module Baseline {
  import opened Wrappers
  import opened Text
  import opened Search

  // ---------------------------------------------------------------------
  // The small helpers, over Python's dynamic values

  /** The values the helpers are called with: `None`, a string, a list, or
      anything else (a number, a dict), which they pass through. */
  datatype Value = Null | Str(s: string) | List(items: seq<Value>) | Other(name: string)

  /** The exception that aborts a run: an index past the end of a string or
      a list. */
  datatype Error = IndexError

  /** `make_list`. */
  function MakeList(v: Value): (r: seq<Value>)
    ensures v.Null? ==> r == []
    ensures v.List? ==> r == v.items
    ensures !v.Null? && !v.List? ==> r == [v]
  {
    match v
    case Null => []
    case List(xs) => xs
    case _ => [v]
  }

  /** A non-empty run of letters, digits, `_` and `-`. */
  predicate NameRun(r: string) {
    r != [] && forall i :: 0 <= i < |r| ==>
      ('A' <= r[i] <= 'Z') || ('a' <= r[i] <= 'z') || IsDigit(r[i]) || r[i] == '_' || r[i] == '-'
  }

  /** The reference argument the command line accepts, `^[A-Za-z0-9_-]+$`:
      a name run, where `$` also matches before one final newline. */
  predicate RefArg(r: string) {
    NameRun(r) || (|r| >= 2 && r[|r| - 1] == '\n' && NameRun(r[..|r| - 1]))
  }

  /** The check on `--reference` in `parse_args`: a non-empty argument that
      is not a plain name stops the program with status 1. */
  function CheckReference(reference: string): (r: Result<string, nat>)
    ensures r.Ok? <==> reference == "" || RefArg(reference)
    ensures r.Ok? ==> r.value == reference
    ensures r.Err? ==> r.error == 1
  {
    if reference != "" && !RefArg(reference) then Err(1) else Ok(reference)
  }

  /** `$` lets one final newline through, but only after a name. */
  lemma CheckReferenceNewline()
    ensures CheckReference("abc\n") == Ok("abc\n")
    ensures CheckReference("\n").Err? && CheckReference("abc\n\n").Err?
  {
    var a, n, nn := "abc\n", "\n", "abc\n\n";
    assert a[..3] == "abc";
    assert NameRun("abc") by {
      assert forall i :: 0 <= i < 3 ==> 'a' <= "abc"[i] <= 'z';
    }
    assert RefArg(a);
    assert !NameRun(n) by {
      assert n[0] == '\n';
    }
    assert !RefArg(n);
    assert !NameRun(nn) by {
      assert nn[4] == '\n';
    }
    assert !NameRun(nn[..4]) by {
      assert nn[..4][3] == '\n';
    }
    assert !RefArg(nn);
  }

  /** The text before the last dot of a file name (empty without a dot). */
  function BaseName(filename: string): string {
    var parts := Split(filename, '.');
    Join(parts[..|parts| - 1], ".")
  }

  /** The text after the last dot of a file name (all of it without a dot). */
  function Extension(filename: string): string {
    var parts := Split(filename, '.');
    parts[|parts| - 1]
  }

  /** `create_filename`: the host goes between the base name and the
      extension. */
  function CreateFilename(filename: string, host: string): string {
    BaseName(filename) + "." + host + "." + Extension(filename)
  }

  /** The extension is what follows the last dot: it holds no dot, and the
      base name, a dot and the extension give the file name back. */
  lemma FilenameParts(filename: string)
    ensures '.' !in Extension(filename)
    ensures '.' in filename ==> BaseName(filename) + "." + Extension(filename) == filename
    ensures '.' !in filename ==> BaseName(filename) == "" && Extension(filename) == filename
  {
    var parts := Split(filename, '.');
    SplitSingle(filename, '.');
    assert '.' !in parts[|parts| - 1];
    if '.' in filename {
      SplitInit(filename, '.');
    } else {
      SplitNone(filename, '.');
    }
  }

  /** Different hosts get different file names. */
  lemma CreateFilenameInjective(filename: string, h1: string, h2: string)
    requires CreateFilename(filename, h1) == CreateFilename(filename, h2)
    ensures h1 == h2
  {
    var b := BaseName(filename);
    var e := Extension(filename);
    var r := CreateFilename(filename, h1);
    assert |h1| == |h2|;
    assert r[|b| + 1..|b| + 1 + |h1|] == h1;
    assert CreateFilename(filename, h2)[|b| + 1..|b| + 1 + |h2|] == h2;
  }

  /** `strip_quotes` on a string: trimmed, then one pair of equal outer
      quotes removed; the first character of an empty result is an
      IndexError. */
  function StripQuotesText(s: string): (r: Result<string, Error>)
    ensures r.Err? <==> AllSpace(s)
  {
    var t := Strip(s);
    if t == [] then Err(IndexError)
    else if (t[0] == '"' || t[0] == '\'') && t[0] == t[|t| - 1] then Ok(Inner(t))
    else Ok(t)
  }

  /** The results of a list comprehension: the first failure, or every
      value. */
  function Collect(rs: seq<Result<Value, Error>>): (r: Result<seq<Value>, Error>)
    ensures r.Ok? <==> forall k :: 0 <= k < |rs| ==> rs[k].Ok?
    ensures r.Ok? ==> |r.value| == |rs| && forall k :: 0 <= k < |rs| ==> r.value[k] == rs[k].value
  {
    if rs == [] then Ok([])
    else match rs[0]
      case Err(e) => Err(e)
      case Ok(v) =>
        match Collect(rs[1..])
        case Err(e) => Err(e)
        case Ok(vs) => Ok([v] + vs)
  }

  /** `strip_quotes`: strings as above, lists element by element, anything
      else unchanged. */
  function StripQuotes(v: Value): (r: Result<Value, Error>)
    ensures r.Ok? ==> (r.value.Str? <==> v.Str?) && (r.value.List? <==> v.List?)
    ensures !v.Str? && !v.List? ==> r == Ok(v)
    ensures v.Str? ==> r.Ok? == StripQuotesText(v.s).Ok?
    ensures v.Str? && r.Ok? ==> r.value.s == StripQuotesText(v.s).value
    ensures v.List? && r.Ok? ==> |r.value.items| == |v.items|
    decreases v
  {
    match v
    case Str(s) =>
      (match StripQuotesText(s)
       case Err(e) => Err(e)
       case Ok(t) => Ok(Str(t)))
    case List(xs) =>
      (match Collect(seq(|xs|, k requires 0 <= k < |xs| => StripQuotes(xs[k])))
       case Err(e) => Err(e)
       case Ok(vs) => Ok(List(vs)))
    case _ => Ok(v)
  }

  /** A list is stripped element by element. */
  lemma StripQuotesList(xs: seq<Value>)
    requires StripQuotes(List(xs)).Ok?
    ensures forall k :: 0 <= k < |xs| ==>
      StripQuotes(xs[k]).Ok? && StripQuotes(List(xs)).value.items[k] == StripQuotes(xs[k]).value
  {
  }

  /** A text in a pair of quotes of either kind comes back out of them. */
  lemma UnquoteQuoted(s: string, q: char)
    requires q == '"' || q == '\''
    ensures StripQuotesText([q] + s + [q]) == Ok(s)
  {
    var t := [q] + s + [q];
    StripKeeps(t);
    assert t[1..|t| - 1] == s;
  }

  /** A plugin that writes a double-quoted value into a single-quoted one
      (everything but `Unix`). */
  predicate SingleQuoted(s: string, plugin: string) {
    '"' in s && '\'' !in s && plugin != "Unix"
  }

  /** `quote_and_escape_value` on a string. */
  function QuoteText(s: string, plugin: string): (r: string)
    ensures |r| >= 2
    ensures SingleQuoted(s, plugin) ==> r == "'" + s + "'"
    ensures !SingleQuoted(s, plugin) ==> r[0] == '"' && r[|r| - 1] == '"'
  {
    if SingleQuoted(s, plugin) then "'" + s + "'"
    else "\"" + ReplaceAll(s, "\"", "\\\"") + "\""
  }

  /** `quote_and_escape_value`: strings quoted, anything else unchanged. */
  function QuoteAndEscape(source: Value, plugin: string): (r: Value)
    ensures r.Str? <==> source.Str?
    ensures source.Str? ==> r.s == QuoteText(source.s, plugin)
    ensures !source.Str? ==> r == source
  {
    if source.Str? then Str(QuoteText(source.s, plugin)) else source
  }

  /** Quoting a value and stripping the quotes again gives the value back,
      unless escaping had to change it (a double quote written between
      double quotes). */
  lemma QuoteRoundTrip(s: string, plugin: string)
    requires '"' !in s || SingleQuoted(s, plugin)
    ensures StripQuotesText(QuoteText(s, plugin)) == Ok(s)
  {
    if SingleQuoted(s, plugin) {
      UnquoteQuoted(s, '\'');
      assert "'" + s + "'" == ['\''] + s + ['\''];
    } else {
      AbsentFirst(s, "\"");
      ReplaceAllAbsent(s, "\"", "\\\"");
      UnquoteQuoted(s, '"');
      assert "\"" + s + "\"" == ['"'] + s + ['"'];
    }
  }

  /** The verdict `format_reference` writes for a compliance result. */
  function Deviation(result: Option<string>): (d: string)
    ensures d == "deviation" <==> result == Some("FAILED")
    ensures d == "compliant" <==> result == Some("PASSED")
    ensures d == "review" <==> result != Some("FAILED") && result != Some("PASSED")
    ensures |d| > 0 && forall i :: 0 <= i < |d| ==> 'a' <= d[i] <= 'z'
  {
    if result == Some("FAILED") then "deviation"
    else if result == Some("PASSED") then "compliant"
    else "review"
  }

  /** `format_reference`: the name, a bar and the verdict. */
  function FormatReference(result: Option<string>, reference: string): (r: string)
    ensures |r| > |reference| + 1 && r[..|reference|] == reference && r[|reference|] == '|'
    ensures r[|reference| + 1..] == Deviation(result)
  {
    assert (reference + "|" + Deviation(result))[|reference| + 1..] == Deviation(result);
    reference + "|" + Deviation(result)
  }

  /** The name part of a reference entry: what comes before its first bar,
      once trimmed. */
  function RefHead(entry: string): string {
    Split(Strip(entry), '|')[0]
  }

  /** A character of a valid name is no quote, comma or bar; the first is
      no whitespace either. */
  lemma NameChar(r: string, i: nat)
    requires RefArg(r) && i < |r|
    ensures r[i] != '"' && r[i] != ',' && r[i] != '|'
    ensures i == 0 ==> !IsSpace(r[i])
  {
    if !NameRun(r) && i < |r| - 1 {
      assert r[i] == r[..|r| - 1][i];
    }
  }

  /** The entry written for a valid name is recognised as that name's, and
      holds no quote or comma. */
  lemma FormatReferenceHead(result: Option<string>, reference: string)
    requires RefArg(reference)
    ensures RefHead(FormatReference(result, reference)) == reference
    ensures '"' !in FormatReference(result, reference) && ',' !in FormatReference(result, reference)
  {
    var d := Deviation(result);
    assert FormatReference(result, reference) == reference + ['|'] + d;
    EntryHead(reference, d);
  }

  /** A valid name, a bar and a lower-case word. */
  lemma EntryHead(reference: string, d: string)
    requires RefArg(reference)
    requires |d| > 0 && forall i :: 0 <= i < |d| ==> 'a' <= d[i] <= 'z'
    ensures RefHead(reference + ['|'] + d) == reference
    ensures '"' !in reference + ['|'] + d && ',' !in reference + ['|'] + d
  {
    var r := reference + ['|'] + d;
    NameChar(reference, 0);
    assert r[0] == reference[0];
    assert r[|r| - 1] == d[|d| - 1];
    StripKeeps(r);
    NameFree(reference);
    SplitAt(reference, d, '|');
  }

  /** A valid name holds no bar, quote or comma. */
  lemma NameFree(reference: string)
    requires RefArg(reference)
    ensures '|' !in reference && '"' !in reference && ',' !in reference
  {
    forall i | 0 <= i < |reference| ensures reference[i] != '|' && reference[i] != '"' && reference[i] != ',' {
      NameChar(reference, i);
    }
  }

  // ---------------------------------------------------------------------
  // The plugin of an audit

  /** `regexes['ctype']` with `re.M` at index `q`: the quoted `check_type`
      name of a header starting a line there, and where the match ends. */
  function CtypeAt(s: string, q: nat): (r: Option<(string, nat)>)
    ensures r.Some? ==> q < r.value.1 <= |s|
  {
    if q > |s| || (q > 0 && s[q - 1] != '\n') then None
    else
      var a := BlankRunEnd(s, q);
      if !At(s, a, "<") then None
      else
        var b := BlankRunEnd(s, a + 1);
        if !At(s, b, "check_type") then None
        else
          var c := BlankRunEnd(s, b + 10);
          if !At(s, c, ":") then None
          else
            var d := BlankRunEnd(s, c + 1);
            if !At(s, d, "\"") then None
            else
              match FindFrom(s, '"', d + 1)
              case None => None
              case Some(e) =>
                if e + 1 < |s| && (IsBlank(s[e + 1]) || s[e + 1] == '>') then Some((s[d + 1..e], e + 2))
                else None
  }

  /** The names of the `check_type` headers of an audit. */
  function CtypeMatches(contents: string): seq<string> {
    FindAll(|contents|, 0, (q: nat) => CtypeAt(contents, q))
  }

  /** `get_plugin_from_contents`: the name of the only header, or
      `Generic`. */
  function PluginFromContents(contents: Value): (r: string)
    ensures !contents.Str? ==> r == "Generic"
    ensures contents.Str? && |CtypeMatches(contents.s)| == 1 ==> r == CtypeMatches(contents.s)[0]
    ensures contents.Str? && |CtypeMatches(contents.s)| != 1 ==> r == "Generic"
  {
    if !contents.Str? then "Generic"
    else
      var m := CtypeMatches(contents.s);
      if |m| == 1 then m[0] else "Generic"
  }

  /** An audit without any header is `Generic`. */
  lemma NoHeaderGeneric(contents: string)
    requires forall q :: 0 <= q < |contents| ==> CtypeAt(contents, q).None?
    ensures PluginFromContents(Str(contents)) == "Generic"
  {
  }

  // ---------------------------------------------------------------------
  // The line patterns of `apply_values_to_audit`

  /** `regexes['econ']`: a closing condition tag alone on its line. */
  predicate EndConditionRe(s: string) {
    var a := BlankRunEnd(s, 0);
    At(s, a, "</condition") &&
    var b := BlankRunEnd(s, a + 11);
    At(s, b, ">") && BlankRunEnd(s, b + 1) == |s|
  }

  /** The `(and|or)` of a condition at index `e`: where it ends. */
  function Conjunction(s: string, e: nat): (r: Option<nat>)
    ensures r.Some? ==> e < r.value <= |s|
  {
    if At(s, e, "and") then Some(e + 3)
    else if At(s, e, "or") then Some(e + 2)
    else None
  }

  /** `regexes['scon']`: an opening `and`/`or` condition tag alone on its
      line. */
  predicate StartConditionRe(s: string) {
    var a := BlankRunEnd(s, 0);
    At(s, a, "<condition") && a + 10 < |s| && IsBlank(s[a + 10]) &&
    var b := BlankRunEnd(s, a + 10);
    At(s, b, "type") &&
    var c := BlankRunEnd(s, b + 4);
    At(s, c, ":") &&
    var d := BlankRunEnd(s, c + 1);
    d < |s| && (s[d] == '"' || s[d] == '\'') &&
    match Conjunction(s, d + 1)
    case None => false
    case Some(e) =>
      e < |s| && (s[e] == '"' || s[e] == '\'') &&
      var f := BlankRunEnd(s, e + 1);
      At(s, f, ">") && BlankRunEnd(s, f + 1) == |s|
  }

  /** `(item|custom_item)>` at index `j`: where it ends. */
  function ItemTag(s: string, j: nat): (r: Option<nat>)
    ensures r.Some? ==> j < r.value <= |s|
  {
    if At(s, j, "item>") then Some(j + 5)
    else if At(s, j, "custom_item>") then Some(j + 12)
    else None
  }

  /** `regexes['sitem']`: an opening item tag alone on its line. */
  predicate StartItemRe(s: string) {
    var a := BlankRunEnd(s, 0);
    At(s, a, "<") &&
    match ItemTag(s, a + 1)
    case None => false
    case Some(b) => BlankRunEnd(s, b) == |s|
  }

  /** `regexes['eitem']`: a closing item tag alone on its line. */
  predicate EndItemRe(s: string) {
    var a := BlankRunEnd(s, 0);
    At(s, a, "</") &&
    match ItemTag(s, a + 2)
    case None => false
    case Some(b) => BlankRunEnd(s, b) == |s|
  }

  /** A `<word>[ \t]*:` field line: its indentation (the pattern's first
      group). */
  function FieldRe(s: string, word: string): (r: Option<string>)
    ensures r.Some? ==> At(s, |r.value|, word)
  {
    var a := BlankRunEnd(s, 0);
    if At(s, a, word) && At(s, BlankRunEnd(s, a + |word|), ":") then Some(s[..a]) else None
  }

  /** What a line is to `apply_values_to_audit`, in the order its patterns
      are tried. */
  datatype LineKind =
    | ConditionEnd
    | ConditionStart
    | ItemStart
    | ItemEnd
    | Description(indent: string, text: string)   // the indentation, and the value after the first colon
    | Reference
    | Plain

  function KindOf(line: string): (k: LineKind)
    ensures k.ItemEnd? ==> EndItemRe(line)
    ensures k.Description? ==> FieldRe(line, "description") == Some(k.indent)
    ensures k.Reference? ==> FieldRe(line, "reference").Some?
  {
    if EndConditionRe(line) then ConditionEnd
    else if StartConditionRe(line) then ConditionStart
    else if StartItemRe(line) then ItemStart
    else if EndItemRe(line) then ItemEnd
    else match FieldRe(line, "description")
      case Some(indent) => Description(indent, Strip(Join(Split(line, ':')[1..], ":")))
      case None => if FieldRe(line, "reference").Some? then Reference else Plain
  }

  /** An empty line is no pattern's. */
  lemma EmptyLinePlain()
    ensures KindOf("") == Plain
  {
  }

  // ---------------------------------------------------------------------
  // Rewriting a reference line

  /** The inner loop over the entries of a reference: an entry that is
      the name's (`isName`) is replaced by `entry`. */
  function ReplaceRefs(refs: seq<string>, isName: string -> bool, entry: string): (r: seq<string>)
    ensures |r| == |refs|
    ensures forall x :: 0 <= x < |refs| ==> r[x] == (if isName(refs[x]) then entry else refs[x])
  {
    seq(|refs|, x requires 0 <= x < |refs| => if isName(refs[x]) then entry else refs[x])
  }

  /** Some entry is the name's. */
  predicate HasRef(refs: seq<string>, isName: string -> bool) {
    exists x :: 0 <= x < |refs| && isName(refs[x])
  }

  /** The entries after the rewrite: the replaced ones, and the new entry
      appended when no entry was the name's and none was found before. */
  function NewRefs(refs: seq<string>, isName: string -> bool, entry: string, found: bool): seq<string>
  {
    if found || HasRef(refs, isName) then ReplaceRefs(refs, isName, entry)
    else ReplaceRefs(refs, isName, entry) + [entry]
  }

  /** A reference line: its quoted list of comma-separated entries
      rewritten; a line without a double quote has no second piece, an
      IndexError. */
  function RewriteReference(line: string, isName: string -> bool, entry: string, found: bool): (r: Result<string, Error>)
    ensures r.Err? <==> '"' !in line
  {
    SplitSingle(line, '"');
    var elements := Split(line, '"');
    if |elements| < 2 then Err(IndexError)
    else
      var refs := NewRefs(Split(elements[1], ','), isName, entry, found);
      Ok(Join(elements[..1] + [Join(refs, ",")] + elements[2..], "\""))
  }

  /** Replacing the name's entries by an entry that is the name's changes
      nothing the second time, and the name keeps an entry. */
  lemma ReplaceRefsTwice(refs: seq<string>, isName: string -> bool, entry: string)
    requires isName(entry)
    ensures ReplaceRefs(ReplaceRefs(refs, isName, entry), isName, entry) == ReplaceRefs(refs, isName, entry)
    ensures HasRef(refs, isName) ==> HasRef(ReplaceRefs(refs, isName, entry), isName)
  {
    var once := ReplaceRefs(refs, isName, entry);
    if HasRef(refs, isName) {
      var x :| 0 <= x < |refs| && isName(refs[x]);
      assert isName(once[x]);
    }
  }

  /** The entries of a rewritten line: the name's entry is among them, the
      rewrite leaves them as they are, and none holds a quote or a comma. */
  lemma NewRefsShape(refs: seq<string>, isName: string -> bool, entry: string)
    requires isName(entry) && '"' !in entry && ',' !in entry
    requires forall x :: 0 <= x < |refs| ==> '"' !in refs[x] && ',' !in refs[x]
    ensures var n := NewRefs(refs, isName, entry, false);
      n != [] && HasRef(n, isName) && ReplaceRefs(n, isName, entry) == n
      && forall x :: 0 <= x < |n| ==> '"' !in n[x] && ',' !in n[x]
  {
    var once := ReplaceRefs(refs, isName, entry);
    ReplaceRefsTwice(refs, isName, entry);
    if !HasRef(refs, isName) {
      var n := once + [entry];
      assert isName(n[|once|]);
      assert ReplaceRefs(n, isName, entry) == once + [entry] by {
        assert forall x :: 0 <= x < |once| ==> ReplaceRefs(n, isName, entry)[x] == ReplaceRefs(once, isName, entry)[x];
      }
    }
  }

  /** Rewriting a reference line, when no earlier line of the item had the
      name's entry, gives a line that the rewrite leaves as it is; the new
      entry must be the name's, without quote or comma (as the entry
      `format_reference` writes for a valid name is, by
      `FormatReferenceHead`). */
  lemma RewriteReferenceIdempotent(line: string, isName: string -> bool, entry: string)
    requires isName(entry) && '"' !in entry && ',' !in entry && '"' in line
    ensures var once := RewriteReference(line, isName, entry, false);
      once.Ok? && RewriteReference(once.value, isName, entry, false) == once
  {
    var elements := Split(line, '"');
    SplitSingle(line, '"');
    var pieces := Split(elements[1], ',');
    assert '"' !in elements[1];
    SplitFree(elements[1], ',', '"');
    var refs := NewRefs(pieces, isName, entry, false);
    NewRefsShape(pieces, isName, entry);
    var joined := Join(refs, ",");
    JoinFree(refs, ",", '"');
    SplitJoin(refs, ',');
    var parts := elements[..1] + [joined] + elements[2..];
    forall k | 0 <= k < |parts|
      ensures '"' !in parts[k]
    {
      if k != 1 {
        assert parts[k] == elements[k];
      }
    }
    var once := Join(parts, "\"");
    SplitJoin(parts, '"');
    assert RewriteReference(line, isName, entry, false) == Ok(once);
    RewriteFixed(once, parts, refs, isName, entry);
  }

  /** A line whose quoted entries the rewrite leaves as they are is left as
      it is. */
  lemma RewriteFixed(once: string, parts: seq<string>, refs: seq<string>, isName: string -> bool, entry: string)
    requires |parts| >= 2 && Split(once, '"') == parts && Split(parts[1], ',') == refs
    requires NewRefs(refs, isName, entry, false) == refs
    ensures RewriteReference(once, isName, entry, false) == Ok(once)
  {
    JoinSplit(parts[1], ',');
    JoinSplit(once, '"');
    assert parts[..1] + [parts[1]] + parts[2..] == parts;
  }

  /** The inner loop of the `reference` branch, as the source runs it over
      the entries. */
  method ReplaceRefsLoop(refs: seq<string>, isName: string -> bool, entry: string, found: bool)
    returns (current: seq<string>, foundRef: bool)
    ensures current == ReplaceRefs(refs, isName, entry)
    ensures foundRef == (found || HasRef(refs, isName))
  {
    current := refs;
    foundRef := found;
    for x := 0 to |refs|
      invariant |current| == |refs|
      invariant forall y :: 0 <= y < x ==> current[y] == (if isName(refs[y]) then entry else refs[y])
      invariant forall y :: x <= y < |refs| ==> current[y] == refs[y]
      invariant foundRef == (found || exists y :: 0 <= y < x && isName(refs[y]))
    {
      if isName(current[x]) {
        current := current[x := entry];
        foundRef := true;
      }
    }
  }

  // ---------------------------------------------------------------------
  // The scan over the lines for one host

  /** What one host's scan carries from line to line. */
  datatype Scan = Scan(
    inCondition: bool,
    inItem: bool,
    foundRef: bool,            // the current item has the name's entry
    result: Option<string>,    // the compliance result of the matched description
    knownGood: string,         // its reported value, '' once written out
    space: string)             // the indentation of the matched description

  const Start := Scan(false, false, false, None, "", "")

  /** What a host reported: for each check name, the actual value and the
      result. */
  type Findings = map<string, (string, string)>

  /** The text operations the scan applies: stripping quotes off a
      description, recognising the name's reference entry, writing the
      entry for a result and quoting a known good value. `Source` gives the
      source's own; the scan and its lemmas hold for any. */
  datatype Ops = Ops(
    unquote: string -> Result<string, Error>,
    isName: string -> bool,
    entry: Option<string> -> string,
    quote: string -> string)

  /** The operations of the source for a reference name and a plugin. */
  function Source(reference: string, plugin: string): Ops {
    Ops(StripQuotesText, (x: string) => RefHead(x) == reference,
        (res: Option<string>) => FormatReference(res, reference), (v: string) => QuoteText(v, plugin))
  }

  /** For a valid name, the entry the source writes is the name's and holds
      no quote or comma, as `RewriteReferenceIdempotent` needs. */
  lemma SourceEntry(reference: string, plugin: string, res: Option<string>)
    requires RefArg(reference)
    ensures var R := Source(reference, plugin);
      R.isName(R.entry(res)) && '"' !in R.entry(res) && ',' !in R.entry(res)
  {
    FormatReferenceHead(res, reference);
  }

  /** The reference line inserted before a close. */
  function RefLine(R: Ops, st: Scan): string {
    st.space + "reference : \"" + R.entry(st.result) + "\""
  }

  /** The `known_good` line inserted before a close. */
  function KnownGoodLine(R: Ops, st: Scan): string {
    st.space + "known_good : " + R.quote(st.knownGood)
  }

  /** The lines an item close inserts before itself: a reference entry when
      a name is given and the item had none, then the known good value when
      a description matched. */
  function CloseLines(R: Ops, named: bool, st: Scan): (r: seq<string>)
    ensures |r| == (if named && !st.foundRef then 1 else 0) + (if st.knownGood != "" then 1 else 0)
    ensures named && !st.foundRef ==> r[0] == RefLine(R, st)
    ensures st.knownGood != "" ==> r[|r| - 1] == KnownGoodLine(R, st)
  {
    if named && !st.foundRef then
      (if st.knownGood != "" then [RefLine(R, st), KnownGoodLine(R, st)] else [RefLine(R, st)])
    else if st.knownGood != "" then [KnownGoodLine(R, st)]
    else []
  }

  /** One line of the inner loop, `named` telling whether a reference name
      is given: the lines it appends, and the new state. */
  function Emit(R: Ops, named: bool, kind: LineKind, line: string, st: Scan, fin: Findings)
    : (r: Result<(seq<string>, Scan), Error>)
    ensures r.Ok? ==> r.value.0 != [] && (!kind.ItemEnd? ==> |r.value.0| == 1)
    ensures r.Ok? && !(kind.Reference? && named) ==> r.value.0[|r.value.0| - 1] == line
    ensures r.Err? ==> kind.Description? || (kind.Reference? && named)
  {
    match kind
    case ConditionEnd => Ok(([line], st.(inCondition := false)))
    case ConditionStart => Ok(([line], st.(inCondition := true)))
    case ItemStart => Ok(([line], st.(inItem := true, foundRef := false)))
    case ItemEnd =>
      Ok((CloseLines(R, named, st) + [line], st.(knownGood := "", result := None, inItem := false)))
    case Description(indent, text) =>
      (match R.unquote(text)
       case Err(e) => Err(e)
       case Ok(name) =>
         if name in fin then Ok(([line], st.(knownGood := fin[name].0, result := Some(fin[name].1), space := indent)))
         else Ok(([line], st)))
    case Reference =>
      if !named then Ok(([line], st))
      else
        (match RewriteReference(line, R.isName, R.entry(st.result), st.foundRef)
         case Err(e) => Err(e)
         case Ok(l) => Ok(([l], st.(foundRef := true))))
    case Plain => Ok(([line], st))
  }

  /** The inner loop from line `k` on: the lines each input line gives. */
  function Run(R: Ops, named: bool, kindOf: string -> LineKind, lines: seq<string>, k: nat, st: Scan, fin: Findings)
    : (r: Result<seq<seq<string>>, Error>)
    requires k <= |lines|
    decreases |lines| - k
  {
    if k == |lines| then Ok([])
    else match Emit(R, named, kindOf(lines[k]), lines[k], st, fin)
      case Err(e) => Err(e)
      case Ok(out) =>
        match Run(R, named, kindOf, lines, k + 1, out.1, fin)
        case Err(e) => Err(e)
        case Ok(rest) => Ok([out.0] + rest)
  }

  /** The chunks `done` before those of a run. */
  function Prepend(done: seq<seq<string>>, r: Result<seq<seq<string>>, Error>): Result<seq<seq<string>>, Error> {
    match r
    case Err(e) => Err(e)
    case Ok(rest) => Ok(done + rest)
  }

  /** One line more of a run moves its chunk to the ones done. */
  lemma RunStep(R: Ops, named: bool, kindOf: string -> LineKind, lines: seq<string>, n: nat, st: Scan, fin: Findings,
                done: seq<seq<string>>)
    requires n < |lines| && Emit(R, named, kindOf(lines[n]), lines[n], st, fin).Ok?
    ensures var out := Emit(R, named, kindOf(lines[n]), lines[n], st, fin).value;
      Prepend(done, Run(R, named, kindOf, lines, n, st, fin))
      == Prepend(done + [out.0], Run(R, named, kindOf, lines, n + 1, out.1, fin))
  {
    var out := Emit(R, named, kindOf(lines[n]), lines[n], st, fin).value;
    var rest := Run(R, named, kindOf, lines, n + 1, out.1, fin);
    if rest.Ok? {
      assert done + ([out.0] + rest.value) == (done + [out.0]) + rest.value;
    }
  }

  /** The lines of a list of chunks, in order. */
  function Flatten(chunks: seq<seq<string>>): seq<string> {
    if chunks == [] then [] else Flatten(chunks[..|chunks| - 1]) + chunks[|chunks| - 1]
  }

  /** The audit written for one host. */
  function HostAudit(R: Ops, named: bool, kindOf: string -> LineKind, lines: seq<string>, fin: Findings)
    : Result<string, Error>
  {
    match Run(R, named, kindOf, lines, 0, Start, fin)
    case Err(e) => Err(e)
    case Ok(chunks) => Ok(Join(Flatten(chunks), "\n"))
  }

  /** Every input line gives one chunk, in order, that ends with that line
      (rewritten only for a reference line when a name is given); only an
      item close adds lines, before itself. */
  lemma {:induction false} RunChunks(R: Ops, named: bool, kindOf: string -> LineKind, lines: seq<string>, k: nat, st: Scan, fin: Findings,
                                     cs: seq<seq<string>>)
    requires k <= |lines| && Run(R, named, kindOf, lines, k, st, fin) == Ok(cs)
    ensures |cs| == |lines| - k
    ensures forall j :: 0 <= j < |cs| ==>
      cs[j] != [] && (!kindOf(lines[k + j]).ItemEnd? ==> |cs[j]| == 1)
      && (!(kindOf(lines[k + j]).Reference? && named) ==> cs[j][|cs[j]| - 1] == lines[k + j])
    decreases |lines| - k
  {
    if k < |lines| {
      var out := Emit(R, named, kindOf(lines[k]), lines[k], st, fin).value;
      var rest := Run(R, named, kindOf, lines, k + 1, out.1, fin).value;
      assert cs == [out.0] + rest;
      RunChunks(R, named, kindOf, lines, k + 1, out.1, fin, rest);
      forall j | 0 <= j < |cs|
        ensures cs[j] != [] && (!kindOf(lines[k + j]).ItemEnd? ==> |cs[j]| == 1)
          && (!(kindOf(lines[k + j]).Reference? && named) ==> cs[j][|cs[j]| - 1] == lines[k + j])
      {
        if j > 0 {
          assert cs[j] == rest[j - 1] && k + j == (k + 1) + (j - 1);
        }
      }
    }
  }

  /** The close of an item whose description matched a finding writes the
      reported value just before itself, at the description's
      indentation, with a reference entry for the reported result before
      that when a name is given and the item had none. */
  lemma DescriptionThenClose(R: Ops, named: bool, indent: string, text: string, l1: string, l2: string, st: Scan, fin: Findings)
    requires R.unquote(text).Ok? && R.unquote(text).value in fin
    ensures var name := R.unquote(text).value;
      var one := Emit(R, named, Description(indent, text), l1, st, fin);
      one.Ok? &&
      var two := Emit(R, named, ItemEnd, l2, one.value.1, fin);
      two.Ok? && var c := two.value.0;
      c[|c| - 1] == l2
      && (fin[name].0 != "" ==> c[|c| - 2] == indent + "known_good : " + R.quote(fin[name].0))
      && (named && !st.foundRef ==> c[0] == indent + "reference : \"" + R.entry(Some(fin[name].1)) + "\"")
      && two.value.1.knownGood == "" && two.value.1.result == None
  {
  }

  /** The scan for the hosts from index `i` on, `audits` holding the
      earlier hosts' files. */
  function Audits(R: Ops, named: bool, kindOf: string -> LineKind, lines: seq<string>, hosts: seq<(string, Findings)>, i: nat,
                  audits: map<string, string>, filename: string)
    : (r: Result<map<string, string>, Error>)
    requires i <= |hosts|
    decreases |hosts| - i
  {
    if i == |hosts| then Ok(audits)
    else match HostAudit(R, named, kindOf, lines, hosts[i].1)
      case Err(e) => Err(e)
      case Ok(text) => Audits(R, named, kindOf, lines, hosts, i + 1, audits[CreateFilename(filename, hosts[i].0) := text], filename)
  }

  /** `apply_values_to_audit` over the hosts in the order their findings
      were read. */
  function Apply(filename: string, contents: string, hosts: seq<(string, Findings)>, reference: string)
    : (r: Result<map<string, string>, Error>)
    ensures hosts == [] ==> r == Ok(map[])
  {
    Audits(Source(reference, PluginFromContents(Str(contents))), reference != "", KindOf, Split(contents, '\n'), hosts, 0, map[], filename)
  }

  /** Distinct hosts, as the keys of a dict are. */
  predicate DistinctHosts(hosts: seq<(string, Findings)>) {
    forall i, j :: 0 <= i < j < |hosts| ==> hosts[i].0 != hosts[j].0
  }

  /** One file per host, named after it, holding that host's audit. */
  lemma AuditsPerHost(R: Ops, named: bool, kindOf: string -> LineKind, lines: seq<string>, hosts: seq<(string, Findings)>,
                      filename: string, r: map<string, string>)
    requires DistinctHosts(hosts)
    requires Audits(R, named, kindOf, lines, hosts, 0, map[], filename) == Ok(r)
    ensures r.Keys == set k | 0 <= k < |hosts| :: CreateFilename(filename, hosts[k].0)
    ensures forall k :: 0 <= k < |hosts| ==>
      HostAudit(R, named, kindOf, lines, hosts[k].1) == Ok(r[CreateFilename(filename, hosts[k].0)])
  {
    AuditsKeys(R, named, kindOf, lines, hosts, 0, map[], filename, r);
    AuditsTexts(R, named, kindOf, lines, hosts, 0, map[], filename, r);
  }

  /** The files written are the earlier ones and one per later host. */
  lemma {:induction false} AuditsKeys(R: Ops, named: bool, kindOf: string -> LineKind, lines: seq<string>, hosts: seq<(string, Findings)>, i: nat,
                                      audits: map<string, string>, filename: string, r: map<string, string>)
    requires i <= |hosts|
    requires Audits(R, named, kindOf, lines, hosts, i, audits, filename) == Ok(r)
    ensures r.Keys == audits.Keys + (set k | i <= k < |hosts| :: CreateFilename(filename, hosts[k].0))
    decreases |hosts| - i
  {
    if i < |hosts| {
      var text := HostAudit(R, named, kindOf, lines, hosts[i].1).value;
      var name := CreateFilename(filename, hosts[i].0);
      AuditsKeys(R, named, kindOf, lines, hosts, i + 1, audits[name := text], filename, r);
      assert (set k | i <= k < |hosts| :: CreateFilename(filename, hosts[k].0))
          == {name} + (set k | i + 1 <= k < |hosts| :: CreateFilename(filename, hosts[k].0));
    }
  }

  /** Each later host's file holds that host's audit. */
  lemma {:induction false} AuditsTexts(R: Ops, named: bool, kindOf: string -> LineKind, lines: seq<string>, hosts: seq<(string, Findings)>, i: nat,
                                       audits: map<string, string>, filename: string, r: map<string, string>)
    requires i <= |hosts| && DistinctHosts(hosts)
    requires Audits(R, named, kindOf, lines, hosts, i, audits, filename) == Ok(r)
    ensures forall k :: i <= k < |hosts| ==>
      CreateFilename(filename, hosts[k].0) in r &&
      HostAudit(R, named, kindOf, lines, hosts[k].1) == Ok(r[CreateFilename(filename, hosts[k].0)])
    decreases |hosts| - i
  {
    if i < |hosts| {
      var text := HostAudit(R, named, kindOf, lines, hosts[i].1).value;
      var name := CreateFilename(filename, hosts[i].0);
      var next := audits[name := text];
      AuditsTexts(R, named, kindOf, lines, hosts, i + 1, next, filename, r);
      forall k | i < k < |hosts|
        ensures CreateFilename(filename, hosts[k].0) != name
      {
        if CreateFilename(filename, hosts[k].0) == name {
          CreateFilenameInjective(filename, hosts[k].0, hosts[i].0);
        }
      }
      AuditsKeep(R, named, kindOf, lines, hosts, i + 1, next, filename, name);
    }
  }

  /** A file named after none of the later hosts keeps its text. */
  lemma {:induction false} AuditsKeep(R: Ops, named: bool, kindOf: string -> LineKind, lines: seq<string>, hosts: seq<(string, Findings)>, i: nat,
                                      audits: map<string, string>, filename: string, name: string)
    requires i <= |hosts| && name in audits
    requires forall k :: i <= k < |hosts| ==> CreateFilename(filename, hosts[k].0) != name
    requires Audits(R, named, kindOf, lines, hosts, i, audits, filename).Ok?
    ensures var r := Audits(R, named, kindOf, lines, hosts, i, audits, filename).value;
      name in r && r[name] == audits[name]
    decreases |hosts| - i
  {
    if i < |hosts| {
      var text := HostAudit(R, named, kindOf, lines, hosts[i].1).value;
      AuditsKeep(R, named, kindOf, lines, hosts, i + 1, audits[CreateFilename(filename, hosts[i].0) := text], filename, name);
    }
  }

  /** An empty audit gives every host an empty file. */
  lemma EmptyContents(R: Ops, named: bool, fin: Findings)
    ensures HostAudit(R, named, KindOf, [""], fin) == Ok("")
  {
    EmptyLinePlain();
    assert Run(R, named, KindOf, [""], 1, Start, fin) == Ok([]);
    assert [[""]] + [] == [[""]];
    assert Run(R, named, KindOf, [""], 0, Start, fin) == Ok([[""]]);
    assert Flatten([[""]]) == Flatten([]) + [""];
  }

  // ---------------------------------------------------------------------
  // The loops

  /** The `if`/`elif` chain of the inner loop for one line. */
  method VisitLine(R: Ops, named: bool, kind: LineKind, line: string, st: Scan, fin: Findings)
    returns (r: Result<(seq<string>, Scan), Error>)
    ensures r == Emit(R, named, kind, line, st, fin)
  {
    var auditLines: seq<string> := [];
    var s := st;
    var l := line;
    match kind {
      case ConditionEnd =>
        s := s.(inCondition := false);
      case ConditionStart =>
        s := s.(inCondition := true);
      case ItemStart =>
        s := s.(inItem := true, foundRef := false);
      case ItemEnd =>
        if named && !s.foundRef {
          auditLines := auditLines + [RefLine(R, s)];
        }
        if s.knownGood != "" {
          auditLines := auditLines + [KnownGoodLine(R, s)];
        }
        assert auditLines == CloseLines(R, named, st);
        s := s.(knownGood := "", result := None, inItem := false);
      case Description(indent, text) =>
        var stripped := R.unquote(text);
        if stripped.Err? {
          return Err(stripped.error);
        }
        if stripped.value in fin {
          s := s.(knownGood := fin[stripped.value].0, result := Some(fin[stripped.value].1), space := indent);
        }
      case Reference =>
        if named {
          var elements := Split(line, '"');
          if |elements| < 2 {
            return Err(IndexError);
          }
          var entry := R.entry(s.result);
          var current, found := ReplaceRefsLoop(Split(elements[1], ','), R.isName, entry, s.foundRef);
          if !found {
            current := current + [entry];
          }
          assert current == NewRefs(Split(elements[1], ','), R.isName, entry, st.foundRef);
          l := Join(elements[..1] + [Join(current, ",")] + elements[2..], "\"");
          assert RewriteReference(line, R.isName, entry, st.foundRef) == Ok(l);
          s := s.(foundRef := true);
        }
      case Plain =>
    }
    if !kind.ItemEnd? {
      assert auditLines + [l] == [l];
    }
    auditLines := auditLines + [l];
    return Ok((auditLines, s));
  }

  /** The inner loop for one host. */
  method ScanHost(R: Ops, named: bool, kindOf: string -> LineKind, lines: seq<string>, fin: Findings)
    returns (r: Result<string, Error>)
    ensures r == HostAudit(R, named, kindOf, lines, fin)
  {
    var auditLines: seq<string> := [];
    var st := Start;
    ghost var done: seq<seq<string>> := [];
    ghost var whole := Run(R, named, kindOf, lines, 0, Start, fin);
    if whole.Ok? {
      assert done + whole.value == whole.value;
    }
    for n := 0 to |lines|
      invariant auditLines == Flatten(done)
      invariant whole == Prepend(done, Run(R, named, kindOf, lines, n, st, fin))
    {
      var out := VisitLine(R, named, kindOf(lines[n]), lines[n], st, fin);
      if out.Err? {
        return Err(out.error);
      }
      assert Flatten(done + [out.value.0]) == Flatten(done) + out.value.0 by {
        assert (done + [out.value.0])[..|done|] == done;
      }
      RunStep(R, named, kindOf, lines, n, st, fin, done);
      auditLines := auditLines + out.value.0;
      done := done + [out.value.0];
      st := out.value.1;
    }
    assert done + [] == done;
    return Ok(Join(auditLines, "\n"));
  }

  /** The host loop of `apply_values_to_audit`; `kindOf` is the chain of
      its line patterns. */
  method ApplyWith(R: Ops, named: bool, kindOf: string -> LineKind, lines: seq<string>,
                   hosts: seq<(string, Findings)>, filename: string)
    returns (r: Result<map<string, string>, Error>)
    ensures r == Audits(R, named, kindOf, lines, hosts, 0, map[], filename)
  {
    var audits: map<string, string> := map[];
    for i := 0 to |hosts|
      invariant Audits(R, named, kindOf, lines, hosts, i, audits, filename)
             == Audits(R, named, kindOf, lines, hosts, 0, map[], filename)
    {
      var auditName := CreateFilename(filename, hosts[i].0);
      var text := ScanHost(R, named, kindOf, lines, hosts[i].1);
      if text.Err? {
        return Err(text.error);
      }
      audits := audits[auditName := text.value];
    }
    return Ok(audits);
  }

  /** `apply_values_to_audit`. */
  method ApplyValuesToAudit(filename: string, contents: string, hosts: seq<(string, Findings)>, reference: string)
    returns (r: Result<map<string, string>, Error>)
    ensures r == Apply(filename, contents, hosts, reference)
  {
    var plugin := PluginFromContents(Str(contents));
    var lines := Split(contents, '\n');
    r := ApplyWith(Source(reference, plugin), reference != "", KindOf, lines, hosts, filename);
  }
}
