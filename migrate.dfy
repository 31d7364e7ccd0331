/** The line rewriter of the database audit migrator
    (`db_audit_migrate/db_audit_migrate.py`): the header and field
    recognisers, `update_check_type`, `read_audit_lines` and
    `convert_audit`. Each compiled pattern is a recogniser named after it
    that decides exactly that pattern over one line. */
module DbAuditMigrate {
  import opened Wrappers
  import opened Text
  import SqlUtil
  import opened Search

  // ---------------------------------------------------------------------
  // Scanning helpers: runs of characters, by index into the line

  /** End of the run of `\s` starting at `j`. */
  function SpacesEnd(s: string, j: nat): (k: nat)
    requires j <= |s|
    ensures j <= k <= |s|
    decreases |s| - j
  {
    if j < |s| && IsSpace(s[j]) then SpacesEnd(s, j + 1) else j
  }

  /** End of the run of plain spaces (` *`) starting at `j`. */
  function BlanksEnd(s: string, j: nat): (k: nat)
    requires j <= |s|
    ensures j <= k <= |s|
    decreases |s| - j
  {
    if j < |s| && s[j] == ' ' then BlanksEnd(s, j + 1) else j
  }

  /** The class `[a-z0-9_-]`. */
  predicate NameChar(c: char) { 'a' <= c <= 'z' || IsDigit(c) || c == '_' || c == '-' }

  /** The class `[A-Za-z0-9_-]`. */
  predicate ValueChar(c: char) { NameChar(c) || 'A' <= c <= 'Z' }

  /** The class `[^\s:]`. */
  predicate KeyChar(c: char) { !IsSpace(c) && c != ':' }

  /** End of the run of `[a-z0-9_-]` starting at `j`. */
  function NameEnd(s: string, j: nat): (k: nat)
    requires j <= |s|
    ensures j <= k <= |s|
    decreases |s| - j
  {
    if j < |s| && NameChar(s[j]) then NameEnd(s, j + 1) else j
  }

  /** End of the run of `[^\s:]` starting at `j`. */
  function KeyEnd(s: string, j: nat): (k: nat)
    requires j <= |s|
    ensures j <= k <= |s|
    decreases |s| - j
  {
    if j < |s| && KeyChar(s[j]) then KeyEnd(s, j + 1) else j
  }

  /** The text `p` at index `j` of `s`, compared character by character. */
  predicate Has(s: string, j: nat, p: string)
    ensures Has(s, j, p) ==> j + |p| <= |s|
    decreases |p|
  {
    j + |p| <= |s| && (p == [] || (s[j] == p[0] && Has(s, j + 1, p[1..])))
  }

  /** `\s*` then the text `p`, from index `j`: the index just after `p`. */
  function Expect(s: string, j: nat, p: string): (r: Option<nat>)
    requires j <= |s|
    ensures r.Some? ==> j + |p| <= r.value <= |s| && Has(s, r.value - |p|, p)
  {
    var k := SpacesEnd(s, j);
    if Has(s, k, p) then
      Some(k + |p|)
    else None
  }

  /** The first index at or after `j` holding `c`, or the length. */
  function Find(s: string, c: char, j: nat): (k: nat)
    requires j <= |s|
    ensures j <= k <= |s| && (k < |s| ==> s[k] == c)
    decreases |s| - j
  {
    if j == |s| || s[j] == c then j else Find(s, c, j + 1)
  }

  /** Where a `.` run from `j` must stop: the next newline, or the end. */
  function LineEnd(s: string, j: nat): (k: nat)
    requires j <= |s|
    ensures j <= k <= |s|
  {
    Find(s, '\n', j)
  }

  /** `.*>` from index `j`: a `>` before the next newline. */
  predicate ClosesAngle(s: string, j: nat)
    requires j <= |s|
  {
    Find(s, '>', j) < LineEnd(s, j)
  }

  /** `"([^"]+)"` where the opening quote ends at `d`: the index of the
      closing quote, which leaves a non-empty value `s[d..e]`. */
  function QuotedEnd(s: string, d: nat): (r: Option<nat>)
    requires d <= |s|
    ensures r.Some? ==> d < r.value < |s| && s[r.value] == '"'
  {
    var e := Find(s, '"', d);
    if d < e < |s| then Some(e) else None
  }

  // ---------------------------------------------------------------------
  // The header patterns

  /** The part `^\s*<\s*check_type\s*:\s*"([^"]+)"` shared by
      `check_type_re` and `db_type_re`: where the check type starts and
      where its closing quote is. */
  function CheckTypeHead(s: string): (r: Option<(nat, nat)>)
    ensures r.Some? ==> r.value.0 < r.value.1 < |s|
  {
    var a :- Expect(s, 0, "<");
    var b :- Expect(s, a, "check_type");
    var c :- Expect(s, b, ":");
    var d :- Expect(s, c, "\"");
    var e :- QuotedEnd(s, d);
    Some((d, e))
  }

  /** `check_type_re`. */
  predicate CheckTypeRe(s: string) {
    var h := CheckTypeHead(s);
    h.Some? && ClosesAngle(s, h.value.1 + 1)
  }

  /** `db_type\s*:\s*"([^"]+)".*>` at index `p`: where the database type
      starts and where its closing quote is. */
  function DbTypeAt(s: string, p: nat): (r: Option<(nat, nat)>)
    ensures r.Some? ==> p < r.value.0 < r.value.1 < |s|
  {
    if Has(s, p, "db_type") then
      var c :- Expect(s, p + 7, ":");
      var d :- Expect(s, c, "\"");
      var e :- QuotedEnd(s, d);
      if ClosesAngle(s, e + 1) then Some((d, e)) else None
    else None
  }

  /** The greedy `.*` before `db_type`: it settles on the rightmost position
      in `lo..hi` at which the rest of the pattern matches. */
  function LastDbType(s: string, lo: nat, hi: nat): (r: Option<nat>)
    ensures r.Some? ==> lo <= r.value <= hi && DbTypeAt(s, r.value).Some?
  {
    LastAt(lo, hi, (q: nat) => DbTypeAt(s, q).Some?)
  }

  /** The database type named on the rest of the line from `lo`. */
  function DbTypeIn(s: string, lo: nat): (r: Option<string>)
    requires lo <= |s|
    ensures r.Some? ==> r.value != []
  {
    match LastDbType(s, lo, LineEnd(s, lo))
    case None => None
    case Some(p) =>
      var g := DbTypeAt(s, p).value;
      Some(s[g.0..g.1])
  }

  /** `db_type_re`: the check type and the database type it names. */
  function DbTypeRe(s: string): (r: Option<(string, string)>)
    ensures r.Some? ==> r.value.0 != [] && r.value.1 != []
    ensures r.Some? ==> Contains(s, r.value.0)
  {
    match CheckTypeHead(s)
    case None => None
    case Some(h) =>
      var check := s[h.0..h.1];
      ContainsSlice(s, h.0, h.1);
      match DbTypeIn(s, h.1 + 1)
      case None => None
      case Some(t) => Some((check, t))
  }

  /** `group_policy_re`: an opening or closing `group_policy` tag, with an
      optional quoted value. */
  predicate GroupPolicyRe(s: string) {
    match Expect(s, 0, "<")
    case None => false
    case Some(a) =>
      var b := if Has(s, a, "/") then a + 1 else a;
      match Expect(s, b, "group_policy")
      case None => false
      case Some(c) =>
        var d := SpacesEnd(s, c);
        Has(s, d, ">") || (Has(s, d, ":") && GroupPolicyValue(s, d + 1))
  }

  /** The optional part `\s*"([^"]+)"\s*` of a `group_policy` tag and the
      closing `>`. */
  predicate GroupPolicyValue(s: string, j: nat)
    requires j <= |s|
  {
    match Expect(s, j, "\"")
    case None => false
    case Some(q) =>
      match QuotedEnd(s, q)
      case None => false
      case Some(e) => Has(s, SpacesEnd(s, e + 1), ">")
  }

  /** `open_item_re`. */
  predicate OpenItemRe(s: string) {
    match Expect(s, 0, "<")
    case None => false
    case Some(a) =>
      match Expect(s, a, "custom_item")
      case None => false
      case Some(b) => Has(s, SpacesEnd(s, b), ">")
  }

  /** `close_item_re`. */
  predicate CloseItemRe(s: string) {
    match Expect(s, 0, "</")
    case None => false
    case Some(a) =>
      match Expect(s, a, "custom_item")
      case None => false
      case Some(b) => Has(s, SpacesEnd(s, b), ">")
  }

  /** `sql_field_re`: the name of the SQL field the line sets. */
  function SqlFieldRe(s: string): (r: Option<string>)
    ensures r.Some? ==> r.value in {"sql_request", "sql_types", "sql_expect"}
    ensures r.Some? ==> Has(s, SpacesEnd(s, 0), r.value)
  {
    var a := SpacesEnd(s, 0);
    var name :=
      if Has(s, a, "sql_request") then "sql_request"
      else if Has(s, a, "sql_types") then "sql_types"
      else if Has(s, a, "sql_expect") then "sql_expect"
      else "";
    if name == "" then None
    else
      match Expect(s, a + |name|, ":")
      case None => None
      case Some(c) => if c < |s| && IsSpace(s[c]) then Some(name) else None
  }

  /** `field_replace_re`, whose one group is the key, the colon and the
      spaces after it. */
  function FieldReplaceRe(s: string): (r: Option<string>)
    ensures r.Some? ==> |r.value| <= |s| && r.value == s[..|r.value|] && ':' in r.value
  {
    var a := SpacesEnd(s, 0);
    var n := KeyEnd(s, a);
    if n == a then None
    else
      var b := SpacesEnd(s, n);
      if !Has(s, b, ":") then None
      else
        var c := BlanksEnd(s, b + 1);
        var e := LineEnd(s, c);
        if e == |s| || e == |s| - 1 then
          assert s[..c][b] == ':';
          Some(s[..c])
        else None
  }

  /** `simple_quoted_field_re`: `name : "…"` or `name : '…'`, the value
      running to the same quote at the end of the line. The class `[^\2]`
      of the pattern is every character but U+0002. */
  predicate QuotedFieldRe(s: string) {
    var a := SpacesEnd(s, 0);
    var n := NameEnd(s, a);
    n > a &&
    match Expect(s, n, ":")
    case None => false
    case Some(b) =>
      var d := SpacesEnd(s, b);
      var z := |RStrip(s)|;
      d < |s| && (s[d] == '"' || s[d] == '\'') && d + 2 <= z && s[z - 1] == s[d]
      && '\U{2}' !in s[d + 1..z - 1]
  }

  /** `simple_unquoted_field_re`: `name : value` with a bare value. */
  predicate UnquotedFieldRe(s: string) {
    var a := SpacesEnd(s, 0);
    var n := NameEnd(s, a);
    n > a &&
    match Expect(s, n, ":")
    case None => false
    case Some(b) =>
      var d := SpacesEnd(s, b);
      var z := |RStrip(s)|;
      d < z && forall m :: d <= m < z ==> ValueChar(s[m])
  }

  /** One character of a case-insensitive pattern letter `l` (lower-case
      ASCII): the letter, its capital, and for `s` the long s U+017F. */
  predicate CiChar(c: char, l: char) {
    c == l || (c as int) + 32 == l as int || (l == 's' && c == 'ſ')
  }

  /** The lower-case text `p` at index `j`, case-insensitively. */
  predicate CiAt(s: string, j: nat, p: string) {
    j + |p| <= |s| && forall m :: 0 <= m < |p| ==> CiChar(s[j + m], p[m])
  }

  /** ` from`, case-insensitively, at index `q`. */
  predicate FromAt(s: string, q: nat) {
    Has(s, q, " ") && CiAt(s, q + 1, "from")
  }

  /** The lazy `(.*?) from`: the first index in `j..hi` where ` from`
      follows. */
  function FirstFrom(s: string, j: nat, hi: nat): (r: Option<nat>)
    ensures r.Some? ==> j <= r.value <= hi && FromAt(s, r.value)
  {
    FirstAt(j, hi, (q: nat) => FromAt(s, q))
  }

  /** `select_re` (`(?i)^select\s(.*?) from`): the selected columns'
      text. */
  function SelectRe(v: string): (r: Option<string>)
    ensures r.Some? ==> |r.value| + 12 <= |v|
  {
    if |v| >= 7 && CiAt(v, 0, "select") && IsSpace(v[6]) then
      var hi := LineEnd(v, 7);
      match FirstFrom(v, 7, hi)
      case None => None
      case Some(j) =>
        Some(v[7..j])
    else None
  }

  // ---------------------------------------------------------------------
  // update_check_type

  /** The identifier of the database-specific check type. */
  function NewType(db: string): (r: string)
    ensures EndsWith(r, "DB") && r != []
    ensures db == "DB2" ==> r == "IBM_DB2DB"
    ensures db == "SQLServer" ==> r == "MS_SQLDB"
    ensures db == "sybase" ==> r == "SybaseDB"
    ensures db !in {"DB2", "SQLServer", "sybase"} ==> r == db + "DB"
  {
    if db == "DB2" then "IBM_DB2DB"
    else if db == "SQLServer" then "MS_SQLDB"
    else if db == "sybase" then "SybaseDB"
    else db + "DB"
  }

  /** The rewrite `update_check_type` applies once the types are known:
      every occurrence of the check type `ct` becomes `nt`, and the line is
      cut just after the first `nt` and closed with `">`. */
  function Retype(line: string, ct: string, nt: string): (r: string)
    requires ct != [] && Contains(line, ct) && nt != []
    ensures EndsWith(r, nt + "\">") && IndexOf(r, nt) == Some(|r| - 2 - |nt|)
  {
    var nl := ReplaceAll(line, ct, nt);
    ReplaceAllIntroduces(line, ct, nt);
    var k := IndexOf(nl, nt).value;
    CutKeepsFirst(nl, nt, k);
    nl[..k + |nt|] + "\">"
  }

  /** `update_check_type`: a line that `db_type_re` does not match is kept;
      otherwise it ends with the new check type, closed by `">`, and that
      is where the new type first occurs. */
  function UpdateCheckType(line: string): (r: string)
    ensures DbTypeRe(line).None? ==> r == line
    ensures DbTypeRe(line).Some? ==>
      var nt := NewType(DbTypeRe(line).value.1);
      EndsWith(r, nt + "\">") && IndexOf(r, nt) == Some(|r| - 2 - |nt|)
  {
    match DbTypeRe(line)
    case None => line
    case Some(g) => Retype(line, g.0, NewType(g.1))
  }

  /** Cutting just after the first occurrence keeps it the first. */
  lemma CutKeepsFirst(nl: string, nt: string, k: nat)
    requires IndexOf(nl, nt) == Some(k)
    ensures var r := nl[..k + |nt|] + "\">";
      EndsWith(r, nt + "\">") && IndexOf(r, nt) == Some(k)
  {
    var r := nl[..k + |nt|] + "\">";
    assert r[k..k + |nt|] == nl[k..k + |nt|];
    assert r[|r| - |nt + "\">"|..] == nt + "\">";
    assert r[..k + |nt|] == nl[..k + |nt|];
    CutNoEarlier(nl, nt, k, r);
    IndexOfAt(r, nt, k);
  }

  /** A prefix of `nl` through its first `nt`, extended, has no earlier
      `nt` either. */
  lemma CutNoEarlier(nl: string, nt: string, k: nat, r: string)
    requires k + |nt| <= |nl| && forall j :: 0 <= j < k ==> !At(nl, j, nt)
    requires |r| >= k + |nt| && r[..k + |nt|] == nl[..k + |nt|]
    ensures forall j :: 0 <= j < k ==> !At(r, j, nt)
  {
    forall j | 0 <= j < k ensures !At(r, j, nt) {
      assert r[j..j + |nt|] == r[..k + |nt|][j..j + |nt|];
      assert nl[j..j + |nt|] == nl[..k + |nt|][j..j + |nt|];
      assert r[j..j + |nt|] == nl[j..j + |nt|];
      assert !At(nl, j, nt);
    }
  }

  // ---------------------------------------------------------------------
  // read_audit_lines

  /** The lines `readline` gives before it first returns the empty
      string. */
  function ContentEnd(raw: seq<string>, i: nat): (n: nat)
    requires i <= |raw|
    ensures i <= n <= |raw| && (n == |raw| || raw[n] == "")
    ensures forall k :: i <= k < n ==> raw[k] != ""
    decreases |raw| - i
  {
    if i == |raw| || raw[i] == "" then i else ContentEnd(raw, i + 1)
  }

  /** The first index in `i..n` whose line satisfies `p`. */
  function FirstWhere(raw: seq<string>, i: nat, n: nat, p: string -> bool): (r: Option<nat>)
    requires i <= n <= |raw|
    ensures r.Some? ==> i <= r.value < n && p(raw[r.value])
    ensures r.Some? ==> forall k :: i <= k < r.value ==> !p(raw[k])
    ensures r.None? ==> forall k :: i <= k < n ==> !p(raw[k])
    decreases n - i
  {
    if i == n then None
    else if p(raw[i]) then Some(i)
    else FirstWhere(raw, i + 1, n, p)
  }

  /** One line more: the first match stays, or the new line is it. */
  lemma {:induction false} FirstWhereSnoc(raw: seq<string>, i: nat, n: nat, p: string -> bool)
    requires i <= n < |raw|
    ensures FirstWhere(raw, i, n + 1, p)
         == if FirstWhere(raw, i, n, p).Some? then FirstWhere(raw, i, n, p)
            else if p(raw[n]) then Some(n) else None
    decreases n - i
  {
    if i < n && !p(raw[i]) {
      FirstWhereSnoc(raw, i + 1, n, p);
    }
  }

  /** The first match is the one no earlier line matches. */
  lemma {:induction false} FirstWhereIs(raw: seq<string>, i: nat, n: nat, p: string -> bool, h: nat)
    requires i <= h < n <= |raw| && p(raw[h])
    requires forall k :: i <= k < h ==> !p(raw[k])
    ensures FirstWhere(raw, i, n, p) == Some(h)
    decreases h - i
  {
    if i < h {
      FirstWhereIs(raw, i + 1, n, p, h);
    }
  }

  /** Every line right-stripped. */
  function RStripAll(ls: seq<string>): (r: seq<string>)
    ensures |r| == |ls| && forall k :: 0 <= k < |ls| ==> r[k] == RStrip(ls[k])
  {
    if ls == [] then [] else [RStrip(ls[0])] + RStripAll(ls[1..])
  }

  /** What `read_audit_lines` decides for a file read as the lines `raw`
      (each as `readline` returns it), over its two header tests: the first
      line that `isHeader` accepts must also pass `supported`, and then
      every line comes back right-stripped. */
  function LinesIfSupported(raw: seq<string>, isHeader: string -> bool, supported: string -> bool): (r: Option<seq<string>>)
    ensures r.Some? ==>
      |r.value| == ContentEnd(raw, 0) && forall k :: 0 <= k < |r.value| ==> r.value[k] == RStrip(raw[k])
  {
    var n := ContentEnd(raw, 0);
    match FirstWhere(raw, 0, n, isHeader)
    case None => None
    case Some(h) => if supported(raw[h]) then Some(RStripAll(raw[..n])) else None
  }

  /** `db_type_re` found something in the line. */
  predicate NamesDbType(line: string) {
    DbTypeRe(line).Some?
  }

  /** `read_audit_lines`: the file's lines, or None when it is not a
      database audit. */
  function AuditLines(raw: seq<string>): (r: Option<seq<string>>)
    ensures r.Some? ==>
      |r.value| == ContentEnd(raw, 0) && forall k :: 0 <= k < |r.value| ==> r.value[k] == RStrip(raw[k])
  {
    LinesIfSupported(raw, CheckTypeRe, NamesDbType)
  }

  /** The first header decides: the file is supported exactly when the first
      line that `isHeader` accepts passes `supported`. */
  lemma FirstHeaderDecides(raw: seq<string>, isHeader: string -> bool, supported: string -> bool, h: nat)
    requires h < ContentEnd(raw, 0) && isHeader(raw[h])
    requires forall k :: 0 <= k < h ==> !isHeader(raw[k])
    ensures LinesIfSupported(raw, isHeader, supported).Some? <==> supported(raw[h])
  {
    FirstWhereIs(raw, 0, ContentEnd(raw, 0), isHeader, h);
  }

  /** For audits: the first `check_type` header must name a `db_type`. */
  lemma AuditLinesFirstHeader(raw: seq<string>, h: nat)
    requires h < ContentEnd(raw, 0) && CheckTypeRe(raw[h])
    requires forall k :: 0 <= k < h ==> !CheckTypeRe(raw[k])
    ensures AuditLines(raw).Some? <==> DbTypeRe(raw[h]).Some?
  {
    FirstHeaderDecides(raw, CheckTypeRe, NamesDbType, h);
  }

  /** Without a `check_type` header the file is not supported. */
  lemma AuditLinesNoHeader(raw: seq<string>)
    requires forall k :: 0 <= k < ContentEnd(raw, 0) ==> !CheckTypeRe(raw[k])
    ensures AuditLines(raw).None?
  {
  }

  /** The loop of `read_audit_lines`, one `readline` at a time, over its
      two header tests. */
  method ReadLinesIfSupported(raw: seq<string>, isHeader: string -> bool, supported: string -> bool)
    returns (r: Option<seq<string>>)
    ensures r == LinesIfSupported(raw, isHeader, supported)
  {
    var n := ContentEnd(raw, 0);
    var lines: seq<string> := [];
    var found := false;
    ghost var h: nat := 0;
    var i: nat := 0;
    while true
      invariant i <= n
      invariant lines == RStripAll(raw[..i])
      invariant !found ==> FirstWhere(raw, 0, i, isHeader).None?
      invariant found ==> FirstWhere(raw, 0, i, isHeader) == Some(h) && supported(raw[h])
      decreases |raw| - i
    {
      var line := if i < |raw| then raw[i] else "";
      if line == "" {
        break;
      }
      RStripAllSnoc(raw, i);
      FirstWhereSnoc(raw, 0, i, isHeader);
      if !found && isHeader(line) {
        if supported(line) {
          found := true;
          h := i;
        } else {
          FirstWhereStays(raw, 0, i + 1, n, isHeader);
          assert FirstWhere(raw, 0, n, isHeader) == Some(i);
          return None;
        }
      }
      lines := lines + [RStrip(line)];
      i := i + 1;
    }
    assert i == n;
    if found {
      FirstWhereStays(raw, 0, i, n, isHeader);
      return Some(lines);
    }
    return None;
  }

  /** `read_audit_lines`. */
  method ReadAuditLines(raw: seq<string>) returns (r: Option<seq<string>>)
    ensures r == AuditLines(raw)
  {
    r := ReadLinesIfSupported(raw, CheckTypeRe, NamesDbType);
  }

  /** A match among the first `m` lines is still the first among `n`. */
  lemma FirstWhereStays(raw: seq<string>, i: nat, m: nat, n: nat, p: string -> bool)
    requires i <= m <= n <= |raw| && FirstWhere(raw, i, m, p).Some?
    ensures FirstWhere(raw, i, n, p) == FirstWhere(raw, i, m, p)
  {
    FirstWhereIs(raw, i, n, p, FirstWhere(raw, i, m, p).value);
  }

  lemma RStripAllSnoc(raw: seq<string>, i: nat)
    requires i < |raw|
    ensures RStripAll(raw[..i + 1]) == RStripAll(raw[..i]) + [RStrip(raw[i])]
  {
    var a, b := RStripAll(raw[..i + 1]), RStripAll(raw[..i]) + [RStrip(raw[i])];
    assert |a| == |b|;
    forall k | 0 <= k < |a| ensures a[k] == b[k] {
      if k < i { assert raw[..i + 1][k] == raw[..i][k]; }
    }
  }
}
