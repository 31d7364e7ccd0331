/** The nesting view of an audit (`structure/view_audit_structure.py`): a
    stack machine over the opening and closing tags of items, reports and
    conditions that records the depth of every opening tag and every
    description. */
module AuditStructure {
  import opened Wrappers
  import opened Text

  /** One line of the view: the line number (from one), the number of tags
      open around it, and the text shown. */
  datatype Entry = Entry(line: nat, depth: nat, text: string)

  /** The two ways the view gives up, with the line index the message
      prints (counted from zero). */
  datatype Failure =
    | OutOfStack(tag: string, line: nat)            // a close with nothing open
    | Unbalanced(top: string, tag: string, line: nat) // a close of another tag than the innermost

  /** The status the program exits with. */
  function ExitCode(f: Failure): (code: nat)
    ensures code == (if f.OutOfStack? then 1 else 2)
  {
    match f
    case OutOfStack(_, _) => 1
    case Unbalanced(_, _, _) => 2
  }

  // ---------------------------------------------------------------------
  // The three patterns

  /** The tag names of the patterns, in the order the alternation tries
      them. */
  const TagNames: seq<string> := ["item", "custom_item", "report", "if", "then", "else", "condition"]

  /** The part `(item|custom_item|…)[ \t>]` at index `j`: the first of
      `names` that occurs there followed by a space, a tab or `>`. */
  function TagFrom(s: string, j: nat, names: seq<string>): (r: Option<string>)
    ensures r.Some? ==> r.value in names && TagAt(s, j, r.value)
    ensures r.None? <==> forall k :: 0 <= k < |names| ==> !TagAt(s, j, names[k])
  {
    if names == [] then None
    else if TagAt(s, j, names[0]) then Some(names[0])
    else
      var r := TagFrom(s, j, names[1..]);
      assert forall k :: 1 <= k < |names| ==> names[k] == names[1..][k - 1];
      r
  }

  /** The tag name `n` at index `j`, followed by a space, a tab or `>`. */
  predicate TagAt(s: string, j: nat, n: string) {
    At(s, j, n) && j + |n| < |s| && s[j + |n|] in {' ', '\t', '>'}
  }

  /** `regexes['open']`: the name of the tag the line opens. */
  function OpenRe(s: string): (r: Option<string>)
    ensures r.Some? ==> r.value in TagNames
  {
    var a := BlankRunEnd(s, 0);
    if At(s, a, "<") then TagFrom(s, a + 1, TagNames) else None
  }

  /** `regexes['close']`: the name of the tag the line closes. */
  function CloseRe(s: string): (r: Option<string>)
    ensures r.Some? ==> r.value in TagNames
  {
    var a := BlankRunEnd(s, 0);
    if At(s, a, "</") then TagFrom(s, a + 2, TagNames) else None
  }

  /** `regexes['description']`: a `description` field with a quoted
      value. */
  predicate DescriptionRe(s: string) {
    var a := BlankRunEnd(s, 0);
    At(s, a, "description") &&
    var b := BlankRunEnd(s, a + 11);
    At(s, b, ":") &&
    var c := BlankRunEnd(s, b + 1);
    c < |s| && (s[c] == '"' || s[c] == '\'')
  }

  /** The text shown for a description: what follows the first colon,
      trimmed, without its quotes. */
  function DescriptionText(s: string): string {
    Inner(Strip(Join(Split(s, ':')[1..], ":")))
  }

  /** A line never both opens and closes a tag: no tag name starts with
      a slash. */
  lemma OpenNotClose(s: string)
    ensures OpenRe(s).Some? ==> CloseRe(s).None?
  {
    var a := BlankRunEnd(s, 0);
    TagFromNoSlash(s, a + 1, TagNames);
    CloseSlash(s, a);
  }

  /** A close pattern has a slash after its `<`. */
  lemma CloseSlash(s: string, a: nat)
    ensures At(s, a, "</") ==> s[a + 1] == '/'
  {
    if At(s, a, "</") {
      AtChars(s, a, "</");
    }
  }

  /** A name found at `j` starts there, so `s[j]` is its first letter. */
  lemma {:induction false} TagFromNoSlash(s: string, j: nat, names: seq<string>)
    requires forall k :: 0 <= k < |names| ==> names[k] != [] && names[k][0] != '/'
    ensures TagFrom(s, j, names).Some? ==> j < |s| && s[j] != '/'
  {
    if names != [] && !TagAt(s, j, names[0]) {
      TagFromNoSlash(s, j, names[1..]);
    }
  }

  /** The opening line of a custom item. */
  lemma OpenCustomItem()
    ensures OpenRe("<custom_item>") == Some("custom_item")
  {
    assert At("<custom_item>", 1, "custom_item");
  }

  /** The closing line of a custom item. */
  lemma CloseCustomItem()
    ensures CloseRe("</custom_item>") == Some("custom_item")
  {
    assert At("</custom_item>", 2, "custom_item");
  }

  /** A name that only starts with a tag name is no tag. */
  lemma LongerNameNoTag()
    ensures OpenRe("<items>") == None
  {
    var s := "<items>";
    assert BlankRunEnd(s, 0) == 0;
    forall k | 0 <= k < |TagNames|
      ensures !TagAt(s, 1, TagNames[k])
    {
      if At(s, 1, TagNames[k]) {
        AtChars(s, 1, TagNames[k]);
      }
    }
  }

  // ---------------------------------------------------------------------
  // What each line is, and the stack machine over it

  /** What a (stripped) line is to the view, the patterns tried in the
      source's order. */
  datatype LineTag = Open(name: string, text: string) | Close(name: string) | Description(text: string) | Plain

  function TagOf(line: string): (t: LineTag)
    ensures t.Open? <==> OpenRe(line).Some?
    ensures t.Open? ==> t.text == line
  {
    match OpenRe(line)
    case Some(o) => Open(o, line)
    case None =>
      match CloseRe(line)
      case Some(c) => Close(c)
      case None => if DescriptionRe(line) then Description(DescriptionText(line)) else Plain
  }

  /** The lines of the content, each stripped. */
  function ContentLines(content: string): seq<string> {
    StripAll(Split(content, '\n'))
  }

  /** Every line classified by `tagOf`. */
  function TagsOf(lines: seq<string>, tagOf: string -> LineTag): (tags: seq<LineTag>)
    ensures |tags| == |lines| && forall k :: 0 <= k < |lines| ==> tags[k] == tagOf(lines[k])
  {
    seq(|lines|, k requires 0 <= k < |lines| => tagOf(lines[k]))
  }

  /** The loop from line `n` on, with the open tags `stack` and the entries
      `audit` so far. */
  function Walk(tags: seq<LineTag>, n: nat, stack: seq<string>, audit: seq<Entry>): Result<seq<Entry>, Failure>
    requires n <= |tags|
    decreases |tags| - n
  {
    if n == |tags| then Ok(audit)
    else
      match tags[n]
      case Open(t, text) => Walk(tags, n + 1, stack + [t], audit + [Entry(n + 1, |stack|, text)])
      case Close(t) =>
        if |stack| == 0 then Err(OutOfStack(t, n))
        else if t == stack[|stack| - 1] then Walk(tags, n + 1, stack[..|stack| - 1], audit)
        else Err(Unbalanced(stack[|stack| - 1], t, n))
      case Description(text) => Walk(tags, n + 1, stack, audit + [Entry(n + 1, |stack|, text)])
      case Plain => Walk(tags, n + 1, stack, audit)
  }

  /** `compute_audit_structure`: no content gives no entries. */
  function Structure(content: Option<string>): (r: Result<seq<Entry>, Failure>)
    ensures content.None? ==> r == Ok([])
  {
    match content
    case None => Ok([])
    case Some(c) => Walk(TagsOf(ContentLines(c), TagOf), 0, [], [])
  }

  /** The loop of `compute_audit_structure` over the stripped lines, each
      line classified by `tagOf`. */
  method WalkLines(lines: seq<string>, tagOf: string -> LineTag) returns (r: Result<seq<Entry>, Failure>)
    ensures r == Walk(TagsOf(lines, tagOf), 0, [], [])
  {
    ghost var tags := TagsOf(lines, tagOf);
    var audit: seq<Entry> := [];
    var stack: seq<string> := [];
    for n := 0 to |lines|
      invariant Walk(tags, n, stack, audit) == Walk(tags, 0, [], [])
    {
      match tagOf(lines[n]) {
        case Open(tag, text) =>
          audit := audit + [Entry(n + 1, |stack|, text)];
          stack := stack + [tag];
        case Close(tag) =>
          if |stack| == 0 {
            return Err(OutOfStack(tag, n));
          } else if tag == stack[|stack| - 1] {
            stack := stack[..|stack| - 1];
          } else {
            return Err(Unbalanced(stack[|stack| - 1], tag, n));
          }
        case Description(text) =>
          audit := audit + [Entry(n + 1, |stack|, text)];
        case Plain =>
      }
    }
    return Ok(audit);
  }

  /** `compute_audit_structure`. */
  method ComputeAuditStructure(content: Option<string>) returns (r: Result<seq<Entry>, Failure>)
    ensures r == Structure(content)
  {
    if content.None? {
      return Ok([]);
    }
    r := WalkLines(ContentLines(content.value), TagOf);
  }

  // ---------------------------------------------------------------------
  // Properties of the view

  /** Opening tags minus closing tags among `tags[a..b]`. */
  function Net(tags: seq<LineTag>, a: nat, b: nat): int
    requires a <= b <= |tags|
    decreases b - a
  {
    if a == b then 0
    else (if tags[b - 1].Open? then 1 else if tags[b - 1].Close? then -1 else 0) + Net(tags, a, b - 1)
  }

  /** The lines the view shows an entry for. */
  predicate Shown(t: LineTag) { t.Open? || t.Description? }

  /** Entries for lines 1 to `n`, in strictly increasing line order. */
  predicate Ordered(es: seq<Entry>, n: int) {
    (forall j :: 0 <= j < |es| ==> 1 <= es[j].line <= n)
    && (forall i, j :: 0 <= i < j < |es| ==> es[i].line < es[j].line)
  }

  /** An entry for the next line keeps the entries ordered. */
  lemma OrderedSnoc(es: seq<Entry>, n: nat, e: Entry)
    requires Ordered(es, n) && e.line == n + 1
    ensures Ordered(es + [e], n + 1)
  {
    var a := es + [e];
    assert forall j :: 0 <= j < |es| ==> a[j] == es[j];
    assert a[|es|] == e;
  }

  /** A prefix `audit + [e]` of `out` gives `audit` as a prefix and `e`
      just after it. */
  lemma PrefixSnoc<T>(out: seq<T>, audit: seq<T>, e: T)
    requires |out| >= |audit| + 1 && out[..|audit| + 1] == audit + [e]
    ensures out[..|audit|] == audit && out[|audit|] == e
  {
    assert out[..|audit|] == out[..|audit| + 1][..|audit|];
  }

  /** Entries are only added, in increasing line order, each for a line
      from `n` on. */
  lemma {:induction false} WalkOrdered(tags: seq<LineTag>, n: nat, stack: seq<string>, audit: seq<Entry>, out: seq<Entry>)
    requires n <= |tags| && Walk(tags, n, stack, audit) == Ok(out) && Ordered(audit, n)
    ensures |out| >= |audit| && out[..|audit|] == audit && Ordered(out, |tags|)
    ensures forall j :: |audit| <= j < |out| ==> n < out[j].line
    decreases |tags| - n
  {
    if n < |tags| {
      match tags[n] {
        case Open(t, text) =>
          var e := Entry(n + 1, |stack|, text);
          OrderedSnoc(audit, n, e);
          WalkOrdered(tags, n + 1, stack + [t], audit + [e], out);
          PrefixSnoc(out, audit, e);
        case Close(t) =>
          WalkOrdered(tags, n + 1, stack[..|stack| - 1], audit, out);
        case Description(text) =>
          var e := Entry(n + 1, |stack|, text);
          OrderedSnoc(audit, n, e);
          WalkOrdered(tags, n + 1, stack, audit + [e], out);
          PrefixSnoc(out, audit, e);
        case Plain =>
          WalkOrdered(tags, n + 1, stack, audit, out);
      }
    }
  }

  /** Each entry added from line `n` on is for an opening tag or a
      description, shows that line's text, and sits at the depth the tags
      opened and closed since `n` leave. */
  lemma {:induction false} WalkDepths(tags: seq<LineTag>, n: nat, stack: seq<string>, audit: seq<Entry>, out: seq<Entry>)
    requires n <= |tags| && Walk(tags, n, stack, audit) == Ok(out)
    requires forall j :: 0 <= j < |audit| ==> audit[j].line <= n
    ensures |out| >= |audit| && out[..|audit|] == audit
    ensures forall j :: |audit| <= j < |out| ==>
        n < out[j].line <= |tags| && Shown(tags[out[j].line - 1])
        && out[j].text == tags[out[j].line - 1].text
        && out[j].depth == |stack| + Net(tags, n, out[j].line - 1)
    decreases |tags| - n
  {
    if n < |tags| {
      NetFront(tags, n);
      match tags[n] {
        case Open(t, text) =>
          var e := Entry(n + 1, |stack|, text);
          WalkDepths(tags, n + 1, stack + [t], audit + [e], out);
          PrefixSnoc(out, audit, e);
        case Close(t) =>
          WalkDepths(tags, n + 1, stack[..|stack| - 1], audit, out);
        case Description(text) =>
          var e := Entry(n + 1, |stack|, text);
          WalkDepths(tags, n + 1, stack, audit + [e], out);
          PrefixSnoc(out, audit, e);
        case Plain =>
          WalkDepths(tags, n + 1, stack, audit, out);
      }
    }
  }

  /** Every opening tag and description from line `n` on gets an entry. */
  lemma {:induction false} WalkComplete(tags: seq<LineTag>, n: nat, stack: seq<string>, audit: seq<Entry>, out: seq<Entry>)
    requires n <= |tags| && Walk(tags, n, stack, audit) == Ok(out)
    ensures |out| >= |audit| && out[..|audit|] == audit
    ensures forall k :: n <= k < |tags| && Shown(tags[k]) ==> exists j :: |audit| <= j < |out| && out[j].line == k + 1
    decreases |tags| - n
  {
    if n < |tags| {
      match tags[n] {
        case Open(t, text) =>
          var e := Entry(n + 1, |stack|, text);
          WalkComplete(tags, n + 1, stack + [t], audit + [e], out);
          PrefixSnoc(out, audit, e);
        case Close(t) =>
          WalkComplete(tags, n + 1, stack[..|stack| - 1], audit, out);
        case Description(text) =>
          var e := Entry(n + 1, |stack|, text);
          WalkComplete(tags, n + 1, stack, audit + [e], out);
          PrefixSnoc(out, audit, e);
        case Plain =>
          WalkComplete(tags, n + 1, stack, audit, out);
      }
    }
  }

  /** A finished run never closed more tags than were open. */
  lemma {:induction false} WalkNeverUnderflows(tags: seq<LineTag>, n: nat, stack: seq<string>, audit: seq<Entry>)
    requires n <= |tags| && Walk(tags, n, stack, audit).Ok?
    ensures forall k :: n <= k <= |tags| ==> |stack| + Net(tags, n, k) >= 0
    decreases |tags| - n
  {
    if n < |tags| {
      NetFront(tags, n);
      match tags[n] {
        case Open(t, text) =>
          WalkNeverUnderflows(tags, n + 1, stack + [t], audit + [Entry(n + 1, |stack|, text)]);
        case Close(t) =>
          WalkNeverUnderflows(tags, n + 1, stack[..|stack| - 1], audit);
        case Description(text) =>
          WalkNeverUnderflows(tags, n + 1, stack, audit + [Entry(n + 1, |stack|, text)]);
        case Plain =>
          WalkNeverUnderflows(tags, n + 1, stack, audit);
      }
    }
  }

  /** Counting from `n` is the first line's share plus counting from
      `n + 1`. */
  lemma {:induction false} NetFront(tags: seq<LineTag>, n: nat)
    requires n < |tags|
    ensures forall b :: n < b <= |tags| ==>
      Net(tags, n, b) == (if tags[n].Open? then 1 else if tags[n].Close? then -1 else 0) + Net(tags, n + 1, b)
  {
    forall b | n < b <= |tags|
      ensures Net(tags, n, b) == (if tags[n].Open? then 1 else if tags[n].Close? then -1 else 0) + Net(tags, n + 1, b)
    {
      NetFrontAt(tags, n, b);
    }
  }

  lemma {:induction false} NetFrontAt(tags: seq<LineTag>, n: nat, b: nat)
    requires n < b <= |tags|
    ensures Net(tags, n, b) == (if tags[n].Open? then 1 else if tags[n].Close? then -1 else 0) + Net(tags, n + 1, b)
    decreases b - n
  {
    if b > n + 1 {
      NetFrontAt(tags, n, b - 1);
    }
  }

  // Over all the lines of a content (`Structure` walks `TagsOf` its
  // lines), from a run that finishes with the entries `out`.

  /** The entries are in increasing line order. */
  lemma WalkEntriesOrdered(tags: seq<LineTag>, out: seq<Entry>)
    requires Walk(tags, 0, [], []) == Ok(out)
    ensures forall i, j :: 0 <= i < j < |out| ==> out[i].line < out[j].line
  {
    WalkOrdered(tags, 0, [], [], out);
  }

  /** Each entry is for an opening tag or a description line, shows its
      text and sits at the depth the earlier lines leave open. */
  lemma WalkEntriesShown(tags: seq<LineTag>, out: seq<Entry>)
    requires Walk(tags, 0, [], []) == Ok(out)
    ensures forall j :: 0 <= j < |out| ==>
      1 <= out[j].line <= |tags| && Shown(tags[out[j].line - 1])
      && out[j].text == tags[out[j].line - 1].text
      && out[j].depth == Net(tags, 0, out[j].line - 1)
  {
    WalkDepths(tags, 0, [], [], out);
  }

  /** Every opening tag and description line has an entry. */
  lemma WalkEntriesComplete(tags: seq<LineTag>, out: seq<Entry>)
    requires Walk(tags, 0, [], []) == Ok(out)
    ensures forall k :: 0 <= k < |tags| && Shown(tags[k]) ==> exists j :: 0 <= j < |out| && out[j].line == k + 1
  {
    WalkComplete(tags, 0, [], [], out);
  }

  /** No prefix of a finished run closes more than it opened. */
  lemma WalkBalanced(tags: seq<LineTag>)
    requires Walk(tags, 0, [], []).Ok?
    ensures forall k :: 0 <= k <= |tags| ==> Net(tags, 0, k) >= 0
  {
    WalkNeverUnderflows(tags, 0, [], []);
  }

  /** A close with nothing open stops the view with status 1. */
  lemma OutOfStackExits(tags: seq<LineTag>, n: nat, audit: seq<Entry>, t: string)
    requires n < |tags| && tags[n] == Close(t)
    ensures Walk(tags, n, [], audit) == Err(OutOfStack(t, n))
    ensures ExitCode(Walk(tags, n, [], audit).error) == 1
  {
  }

  /** A close of another tag than the innermost stops the view with
      status 2. */
  lemma UnbalancedExits(tags: seq<LineTag>, n: nat, stack: seq<string>, audit: seq<Entry>, t: string)
    requires n < |tags| && tags[n] == Close(t) && stack != [] && stack[|stack| - 1] != t
    ensures Walk(tags, n, stack, audit) == Err(Unbalanced(stack[|stack| - 1], t, n))
    ensures ExitCode(Walk(tags, n, stack, audit).error) == 2
  {
  }

  /** Without any closing tag the view never fails: tags left open at the
      end are not an error. */
  lemma {:induction false} NoCloseNoFailure(tags: seq<LineTag>, n: nat, stack: seq<string>, audit: seq<Entry>)
    requires n <= |tags| && forall k :: n <= k < |tags| ==> !tags[k].Close?
    ensures Walk(tags, n, stack, audit).Ok?
    decreases |tags| - n
  {
    if n < |tags| {
      match tags[n] {
        case Open(t, text) => NoCloseNoFailure(tags, n + 1, stack + [t], audit + [Entry(n + 1, |stack|, text)]);
        case Description(text) => NoCloseNoFailure(tags, n + 1, stack, audit + [Entry(n + 1, |stack|, text)]);
        case Plain => NoCloseNoFailure(tags, n + 1, stack, audit);
      }
    }
  }
}
