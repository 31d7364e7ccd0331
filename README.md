# Tenable audit scripts: a verified model of the audit-processing core

This project models, in Dafny, the text and record processing at the heart of
a set of scripts that maintain compliance audit files:

- `SqlUtil` (`sql_util.dfy`) is the expect-language utility of the database
  audit migrator. It holds the legacy type table and `parse_types`, the
  token classifier `type_of`, the backslash-aware delimiter scan
  `_parse_string`, the scanner and grouper `parse_expect`, and the slot
  collapser `compute_type_and_expect`.
- `DbAuditMigrate` (`migrate.dfy`) holds the migrator's line patterns, each
  written out as a recogniser named after its pattern. It also holds
  `update_check_type` and the header test of `read_audit_lines`.
- `DbAuditConvert` (`convert.dfy`) is the one-pass line loop of
  `convert_audit`. The loop state is the lines, the recorded `sql_request`,
  `sql_types` and `sql_expect` lines, the item flag, the lines to delete and
  the warnings. The pass ends by deleting the `group_policy` lines.
- `AuditStructure` (`audit_structure.dfy`) is the tag-stack walk of
  `compute_audit_structure`, the nesting viewer.
- `Baseline` (`baseline.dfy`) is the baseline builder. It holds the pure
  helpers (`make_list`, `create_filename`, `strip_quotes`,
  `quote_and_escape_value`, `format_reference`, `get_plugin_from_contents`)
  and the per-host line scan of `apply_values_to_audit`.
- `Variables` (`variables.dfy`) is the variable table of `get_variables` and
  the line-preserving rewrite of `replace_variable_values`, with its list of
  waiting notes.
- `NessusConvert` (`nessus_convert.dfy`) is the result roll-up:
  `field_order_key`, `sanitize_ids`, `collapse` and `rollup`.

The helper modules are:

- `Wrappers`: `Option` and `Result`. A Python exception or a
  `display(..., exit=n)` call becomes an error value.
- `Text`: the parts of Python's `str` the scripts use: `strip`, `split`,
  `join`, `replace`, `in`, `index`, `lower`, and `<` on strings.
- `Search`: the first, last and all matches of a pattern, for `match`,
  `search` and `findall`.
- `Lists`: `del xs[i]` over a list of indices, largest first.
- `Dicts`: a Python dict as a list of entries in insertion order.
- `Grouping`: a loop that appends each element to the list of its key in a
  dict, and a loop over the groups.

Each loop of the source is a `method` with that loop. Its `ensures` ties the
result to a specification function written as a recursion over the same
steps. The properties the scripts and their tests promise are proved as
lemmas about those functions.

Where the scripts call a recogniser or a helper inside a loop, the
specification functions take the operations as a record parameter. These
records are `DbAuditConvert.Rules`, `Baseline.Ops` and `Variables.Ops`. The
script's own instance of each is the constant `Source`. Lemmas that hold for
any such operations are stated over the parameter. Lemmas that need the
script's own patterns are stated over `Source`.

## Model

| member | source | states |
|---|---|---|
| SqlUtil.MapTypes | db_audit_migrate/sql_util.py:18 | each name is looked up in `type_map` in order; the result has one entry per name, each the table's value; the error names the first name missing from the table |
| SqlUtil.ParseTypes | db_audit_migrate/sql_util.py:15-18 | one type per comma-separated part (the number of commas plus one); each is the table entry of the trimmed part; it fails exactly when some trimmed part is not in the table (KeyError) |
| SqlUtil.CloseAt | db_audit_migrate/sql_util.py:43-45 | the first position at or after the start that holds the stop character without a backslash before it, and no such position before it; or none at all |
| SqlUtil.ParseString | db_audit_migrate/sql_util.py:42-47 | the token runs from `i` through the first unescaped stop after `i`, and that position is returned; without one, `index` raises (NotFound) |
| SqlUtil.DigitRunEnd | db_audit_migrate/sql_util.py:63-68 | the last position of the run of digits starting at `i`: every character up to it is a digit and the next one is not |
| SqlUtil.ScanDigits | db_audit_migrate/sql_util.py:64-66 | the inner digit loop stops at the last digit of the run (`DigitRunEnd`) |
| SqlUtil.QuoteFrom | db_audit_migrate/sql_util.py:71 | the first quote character at or after the start, none before it; or none at all |
| SqlUtil.SkipToQuote | db_audit_migrate/sql_util.py:71 | the loop past `regex` stops at the first quote; running off the end is the IndexError of indexing past the string |
| SqlUtil.TokenAt | db_audit_migrate/sql_util.py:56-86 | one round of the scanner always moves strictly forward and stays within the text (the kind of each atom is stated by the `…AtomKind` lemmas) |
| SqlUtil.ScanToken | db_audit_migrate/sql_util.py:56-86 | the branch chain of the scanning loop computes exactly `TokenAt`, raising on a character that starts no token |
| SqlUtil.Merge | db_audit_migrate/sql_util.py:94-97 | adding a leaf to the last slot always leaves an alternation (`COMPLEX`) |
| SqlUtil.FinishAtom | db_audit_migrate/sql_util.py:87-97 | an atom is placed before the rest of the scan is grouped, and a failed placement is the result |
| SqlUtil.FinishComma | db_audit_migrate/sql_util.py:82-83 | a comma only increments `idx` |
| SqlUtil.ParseExpect | db_audit_migrate/sql_util.py:50-100 | the scanning loop with its `idx` counter and in-place slot updates computes exactly `ParseSpec` |
| SqlUtil.PlaceKeepsSlotsOk | db_audit_migrate/sql_util.py:90-97 | placing a well-formed leaf keeps every slot well formed: leaves typed by `type_of` with non-empty literals, alternations of two or more |
| SqlUtil.GroupKeepsSlotsOk | db_audit_migrate/sql_util.py:87-97 | grouping atoms with non-empty literals keeps every slot well formed |
| SqlUtil.ScanAtomsNonEmpty | db_audit_migrate/sql_util.py:55-86 | every atom the scanner yields is non-empty |
| SqlUtil.ParsedSlotsOk | db_audit_migrate/sql_util.py:50-100 | every leaf of a parsed value is `(type_of(lit), lit)` with `lit` non-empty, and every alternation has at least two members |
| SqlUtil.MergeAllComplex | db_audit_migrate/sql_util.py:95 | appending leaves to an alternation appends them to its members, in order |
| SqlUtil.MergeRun | db_audit_migrate/sql_util.py:91-97 | atoms scanned while `idx` is below the slot count all join the last slot, in scan order |
| SqlUtil.StartFirst | db_audit_migrate/sql_util.py:91-92 | an atom scanned when `idx` equals the slot count opens a new slot |
| SqlUtil.MergeAllFirst | db_audit_migrate/sql_util.py:94-97 | the leaves after the first turn the new slot into the alternation of all of them (a single leaf stays a leaf) |
| SqlUtil.StartRun | db_audit_migrate/sql_util.py:91-97 | a run of atoms opening a new slot makes exactly one slot: a leaf for one atom, an alternation of all of them otherwise |
| SqlUtil.CommaFirst | db_audit_migrate/sql_util.py:82-83 | a comma changes no slot and only counts |
| SqlUtil.RenderedOne | db_audit_migrate/sql_util.py:87-97 | one run of atoms alone makes one slot |
| SqlUtil.RenderCons | db_audit_migrate/sql_util.py:82-83 | the token stream of several runs is the first run, a comma, and the stream of the rest |
| SqlUtil.RenderedCons | db_audit_migrate/sql_util.py:87-97 | a run and a comma before the other runs make the run's slot in front of theirs |
| SqlUtil.GroupRenderedFrom | db_audit_migrate/sql_util.py:87-97 | runs of atoms separated by single commas make one slot per run, in order, after the slots already there |
| SqlUtil.GroupRendered | db_audit_migrate/sql_util.py:53-98 | against a reference definition: from no slots, runs separated by single commas make one slot per run, each leaf `(type_of(v), v)`, as in the `ALERT`/`LOG` and `4 \|\| 6, "ON"` expectations |
| SqlUtil.ScanFromExample | db_audit_migrate/sql_util.py:53-85 | the string `4 \|\| 6, "ON"` scans to the atoms `4` and `6`, a comma and `"ON"`, with no failure |
| SqlUtil.GroupExample | db_audit_migrate/sql_util.py:87-98 | those tokens group into the alternation of the integers 4 and 6, then the string `"ON"` |
| SqlUtil.ParseSpecExample | db_audit_migrate/sql_util_test.py:64 | `parse_expect("4 \|\| 6, \"ON\"")` is `[('COMPLEX', [('INTEGER', '4'), ('INTEGER', '6')]), ('STRING', '"ON"')]` |
| SqlUtil.LeadingCommaFails | db_audit_migrate/sql_util.py:91-97 | a comma before any atom makes the next atom index `result[-1]` of an empty list: IndexError |
| SqlUtil.DoubleCommaMerges | db_audit_migrate/sql_util.py:82-97 | an empty place between two commas opens no slot: the atom after it joins the slot before it |
| SqlUtil.QuotedAtomKind | db_audit_migrate/sql_util.py:57-58 | an atom scanned from a quote is a quoted literal, which `type_of` calls STRING |
| SqlUtil.VariableAtomKind | db_audit_migrate/sql_util.py:61-62 | an atom scanned from `@` is a variable, which `type_of` calls INTEGER |
| SqlUtil.DigitAtomKind | db_audit_migrate/sql_util.py:63-68 | an atom scanned from a digit always exists and is INTEGER |
| SqlUtil.RegexAtomKind | db_audit_migrate/sql_util.py:69-73 | an atom scanned from `regex` is `regex:` and the quoted text, which is REGEX |
| SqlUtil.RegexWordKind | db_audit_migrate/sql_util.py:34-35 | `regex:` followed by a quote is REGEX |
| SqlUtil.BracketAtomKind | db_audit_migrate/sql_util.py:59-60 | an atom scanned from `[` is RANGE or UNKNOWN |
| SqlUtil.TypeOfQuotedExamples | db_audit_migrate/sql_util.py:24-31 | the first rule that applies decides: `"@DEF ZYX@"` and `''` are STRING, `NULL` is NULL, `@ABC@` is INTEGER |
| SqlUtil.TypeOfIntegerExample | db_audit_migrate/sql_util_test.py:33 | `908` is INTEGER |
| SqlUtil.TypeOfRegexExample | db_audit_migrate/sql_util_test.py:36 | `regex: 'DEF ZYX'` is REGEX |
| SqlUtil.TypeOfRangeExamples | db_audit_migrate/sql_util_test.py:38-39 | `[1..5]` and `[1..MAX]` are RANGE |
| SqlUtil.TypeOfUnknownExamples | db_audit_migrate/sql_util_test.py:40-41 | `9.08` and `null` are UNKNOWN |
| SqlUtil.RangeProbeAsWritten | db_audit_migrate/sql_util.py:111 | the guard as written reads the first characters of the second member's kind and literal; it fails exactly when there is no second member or its literal is empty |
| SqlUtil.RangeProbeAsWrittenNeverFires | db_audit_migrate/sql_util.py:111 | as written, the probed list never contains `RANGE`, so the guard never raises its error |
| SqlUtil.RangeProbeAsWrittenMissesRange | db_audit_migrate/sql_util.py:111-112 | a range member of an alternation passes the guard as written |
| SqlUtil.DropNulls | db_audit_migrate/sql_util.py:114-118 | no NULL member is left, and the length is kept exactly when there was no NULL member |
| SqlUtil.DeleteNulls | db_audit_migrate/sql_util.py:114-118 | the reversed deletion loop leaves the members without the NULL ones, in order, and sets `_OR_NULL` exactly when some member was NULL |
| SqlUtil.DeleteNullsStep | db_audit_migrate/sql_util.py:115-118 | one turn at index `i` deletes that member exactly when it is NULL and leaves the later members alone |
| SqlUtil.ComputeTypeAndExpect | db_audit_migrate/sql_util.py:103-138 | the method, with the guard of line 111 as written, its deletion loop and its IndexError cases, computes exactly `Collapse` |
| SqlUtil.CollapseSingleUnchanged | db_audit_migrate/sql_util.py:130-136 | a leaf that is no range, holds no `regex:` and is not single-quoted comes back unchanged, so collapsed values are fixed points |
| SqlUtil.CollapseRange | db_audit_migrate/sql_util.py:107-108 | a range becomes INTEGER with its literal kept |
| SqlUtil.CollapseOrNull | db_audit_migrate/sql_util.py:114-129 | the type of any alternation that collapses, range members included, ends in `_OR_NULL` exactly when some member was NULL |
| SqlUtil.CollapseAlternation | db_audit_migrate/sql_util.py:111-124 | two or more members left give REGEX (plus the suffix) and `"^(a\|b\|…)$"` of their alternatives, in member order, range members among them; an empty second literal is the IndexError of the guard |
| SqlUtil.CollapseOneLeft | db_audit_migrate/sql_util.py:111-129 | one member left, a range included, gives its own type plus the suffix and its literal without `regex:`, re-quoted; an alternation of one member, or with an empty second literal, is the IndexError of the guard |
| SqlUtil.DropNullsAllNull | db_audit_migrate/sql_util.py:114-118 | an alternation of NULLs only has no member left |
| SqlUtil.CollapseAllNull | db_audit_migrate/sql_util.py:126 | an all-NULL alternation indexes an empty list: IndexError |
| SqlUtil.CollapseRejectsRange | db_audit_migrate/sql_util.py:110-112 | with the guard as meant (`CollapseMeant`), an alternation with a range member is refused |
| SqlUtil.CollapseMeantAgrees | db_audit_migrate/sql_util.py:110-112 | the corrected guard changes nothing else: a leaf, and a well-formed alternation without a range member, collapse as the code is written |
| SqlUtil.CollapseRangeAlternationAsWritten | db_audit_migrate/sql_util.py:110-124 | as written, a range and another plain value collapse to the anchored regex `"^(a\|b)$"` of both |
| SqlUtil.CollapseRangeOrNullAsWritten | db_audit_migrate/sql_util.py:110-129 | as written, a range or NULL collapses to `RANGE_OR_NULL` with the range kept |
| SqlUtil.CollapseRangeAlternationExample | db_audit_migrate/sql_util.py:110-124 | `[1..5] \|\| 4` collapses to `('REGEX', '"^([1..5]\|4)$"')` |
| SqlUtil.CollapseRangeOrNullExample | db_audit_migrate/sql_util.py:110-129 | `[1..5] \|\| NULL` collapses to `('RANGE_OR_NULL', '[1..5]')` |
| SqlUtil.EscapeQuotes | db_audit_migrate/sql_util.py:135 | after the replace, every double quote has a backslash just before it |
| SqlUtil.RequoteQuotes | db_audit_migrate/sql_util.py:133-136 | a value not single-quoted is left alone; a single-quoted one becomes double-quoted with no unescaped double quote inside |
| SqlUtil.CollapseRangeExample | db_audit_migrate/sql_util_test.py:92 | `[4..MAX]` collapses to `('INTEGER', '[4..MAX]')` |
| SqlUtil.CollapseRegexExample | db_audit_migrate/sql_util_test.py:85 | `regex:"@ABC@"` collapses to `('REGEX', '"@ABC@"')` |
| SqlUtil.StripRegexExample | db_audit_migrate/sql_util.py:131 | removing `regex:` from `regex:"@ABC@"` leaves `"@ABC@"` |
| SqlUtil.AlternativeOfQuoted | db_audit_migrate/sql_util.py:121 | a double-quoted value whose inside has no quote at either end and no `r` comes out of the alternative as its inside |
| SqlUtil.CollapseTwoQuoted | db_audit_migrate/sql_util_test.py:98 | two quoted non-NULL members, ranges included, give `('REGEX', '"^(a\|b)$"')`, the shape of `"ALERT"`/`"LOG"` |
| SqlUtil.TwoQuotedMembers | db_audit_migrate/sql_util.py:114-121 | two quoted non-NULL members lose nothing to the NULL loop and give their insides as alternatives |
| SqlUtil.CollapseOrNullExample | db_audit_migrate/sql_util_test.py:104 | `1` and `NULL` collapse to `('INTEGER_OR_NULL', '1')` |
| DbAuditMigrate.CheckTypeHead | db_audit_migrate/db_audit_migrate.py:21 | the start of the check type and its closing quote, with a non-empty check type between them |
| DbAuditMigrate.LastDbType | db_audit_migrate/db_audit_migrate.py:22 | the greedy `.*` before `db_type` settles on a position where the rest of the pattern matches |
| DbAuditMigrate.DbTypeIn | db_audit_migrate/db_audit_migrate.py:22 | the database type found on the rest of the line is non-empty |
| DbAuditMigrate.DbTypeRe | db_audit_migrate/db_audit_migrate.py:22 | a match gives a non-empty check type, which occurs in the line, and a non-empty database type |
| DbAuditMigrate.SqlFieldRe | db_audit_migrate/db_audit_migrate.py:27 | a match names `sql_request`, `sql_types` or `sql_expect`, and the name follows the leading whitespace |
| DbAuditMigrate.FieldReplaceRe | db_audit_migrate/db_audit_migrate.py:26 | the group is a prefix of the line that holds the colon |
| DbAuditMigrate.SelectRe | db_audit_migrate/db_audit_migrate.py:30 | the selected columns' text is shorter than the value by at least `select`, ` from` and a space |
| DbAuditMigrate.NewType | db_audit_migrate/db_audit_migrate.py:134-141 | DB2 becomes `IBM_DB2DB`, SQLServer `MS_SQLDB` and sybase `SybaseDB`; any other database type gets `DB` appended, so the identifier always ends in `DB` |
| DbAuditMigrate.Retype | db_audit_migrate/db_audit_migrate.py:142-143 | the replaced line, cut after the first occurrence of the new type, ends with the new type and `">`, and that is the new type's first occurrence |
| DbAuditMigrate.UpdateCheckType | db_audit_migrate/db_audit_migrate.py:130-144 | a line without a `db_type` match is returned unchanged; otherwise the result ends with the new type and `">`, where the new type first occurs |
| DbAuditMigrate.CutKeepsFirst | db_audit_migrate/db_audit_migrate.py:143 | cutting just after the first occurrence keeps it the first, followed only by `">` |
| DbAuditMigrate.CutNoEarlier | db_audit_migrate/db_audit_migrate.py:143 | a text that agrees with the line through the first occurrence has no earlier occurrence either |
| DbAuditMigrate.ContentEnd | db_audit_migrate/db_audit_migrate.py:153-156 | `readline` gives the lines up to the first empty one (end of file) |
| DbAuditMigrate.LinesIfSupported | db_audit_migrate/db_audit_migrate.py:151-169 | when the file is supported, the result is every line up to the end of file, right-stripped |
| DbAuditMigrate.FirstHeaderDecides | db_audit_migrate/db_audit_migrate.py:157-167 | the first header line decides: the file is supported exactly when that line passes the second test |
| DbAuditMigrate.AuditLinesFirstHeader | db_audit_migrate/db_audit_migrate.py:160-164 | an audit is supported exactly when its first `check_type` header also names a `db_type` |
| DbAuditMigrate.AuditLinesNoHeader | db_audit_migrate/db_audit_migrate.py:167 | without any `check_type` header the audit is not supported |
| DbAuditMigrate.ReadLinesIfSupported | db_audit_migrate/db_audit_migrate.py:151-169 | the `readline` loop with its `found` flag computes exactly `LinesIfSupported` |
| DbAuditMigrate.ReadAuditLines | db_audit_migrate/db_audit_migrate.py:147-169 | `read_audit_lines` over the two header patterns computes exactly `AuditLines` |
| DbAuditConvert.Classify | db_audit_migrate/db_audit_migrate.py:188-241 | the first pattern that matches decides: a header exactly when `db_type_re` matches; an SQL field names one of the three fields; a quoted or unquoted field carries the trimmed key before its first colon |
| DbAuditConvert.Init | db_audit_migrate/db_audit_migrate.py:182-186 | the starting state (nothing recorded, no item open) meets the loop invariant |
| DbAuditConvert.MapResult | db_audit_migrate/db_audit_migrate.py:214 | the comprehension gives one result per slot, in order, or the failure of the first slot that fails |
| DbAuditConvert.First | db_audit_migrate/db_audit_migrate.py:215 | `findall(...)[0]` is the match, or IndexError when there is none |
| DbAuditConvert.ColumnCheck | db_audit_migrate/db_audit_migrate.py:219-227 | the column check adds at most one warning |
| DbAuditConvert.Rewrite | db_audit_migrate/db_audit_migrate.py:212-227 | the rewrite keeps the line count and changes no line but the `sql_types` and `sql_expect` lines |
| DbAuditConvert.Step | db_audit_migrate/db_audit_migrate.py:187-241 | one turn keeps the loop invariant and the line count, leaves later lines alone, and adds the line to the deletions exactly when it is a `group_policy` line |
| DbAuditConvert.StepFrame | db_audit_migrate/db_audit_migrate.py:187-241 | only the current line and the item's recorded `sql_types` and `sql_expect` lines can change |
| DbAuditConvert.StepCommentsOut | db_audit_migrate/db_audit_migrate.py:232-241 | a field line on its allow-list is left alone; any other becomes `#` plus the line, with one warning |
| DbAuditConvert.StepCloseResets | db_audit_migrate/db_audit_migrate.py:228-231 | a close forgets `sql_types` and `sql_expect`, closes the item, and keeps `sql_request` (line 228 assigns a misspelled name) |
| DbAuditConvert.StepCloseWithoutFields | db_audit_migrate/db_audit_migrate.py:206-210 | a close without both SQL fields changes no line and only warns: a stray close first if no item was open, then the missing fields |
| DbAuditConvert.StepCloseRewrites | db_audit_migrate/db_audit_migrate.py:212-218 | a close with both fields sets each to its `field_replace_re` group plus the computed types, or expects, joined by `, ` |
| DbAuditConvert.StepCloseFails | db_audit_migrate/db_audit_migrate.py:213-217 | a bad expect value aborts with its own error; a types line without a `field_replace_re` group aborts with IndexError |
| DbAuditConvert.ColumnCheckWarns | db_audit_migrate/db_audit_migrate.py:219-227 | the column warning is given exactly when more than one value was computed and the select names a different number of columns |
| DbAuditConvert.StepOpen | db_audit_migrate/db_audit_migrate.py:202-205 | an open marks the item open, changes no line, and warns exactly when an item was already open |
| DbAuditConvert.SourceRetypesHeader | db_audit_migrate/db_audit_migrate.py:188-190 | with the migrator's patterns, a `db_type` header is rewritten to end with the new type and `">` |
| DbAuditConvert.GroupLinesAre | db_audit_migrate/db_audit_migrate.py:191-193 | the recorded indices are exactly the earlier `group_policy` lines |
| DbAuditConvert.RunTracks | db_audit_migrate/db_audit_migrate.py:187-193 | the loop never rewrites a line before visiting it, so the deletions are exactly the `group_policy` lines of the input |
| DbAuditConvert.ConvertDropsGroupPolicy | db_audit_migrate/db_audit_migrate.py:243-246 | the output has the input's line count minus the `group_policy` lines, and only those lines are removed |
| DbAuditConvert.CollapseSlots | db_audit_migrate/db_audit_migrate.py:214 | the comprehension over the parsed slots computes exactly `MapResult` of `Collapse` |
| DbAuditConvert.ComputeExpected | db_audit_migrate/db_audit_migrate.py:212-214 | parsing the expect value and collapsing its slots computes exactly `ComputeAll` |
| DbAuditConvert.RewriteItem | db_audit_migrate/db_audit_migrate.py:212-227 | the rewrite of the two SQL lines and the column check compute exactly `Rewrite` |
| DbAuditConvert.CloseItemBranch | db_audit_migrate/db_audit_migrate.py:206-231 | the close branch computes exactly `Step` on a close line |
| DbAuditConvert.VisitLine | db_audit_migrate/db_audit_migrate.py:188-241 | the if/elif chain computes exactly `Step` |
| DbAuditConvert.ConvertLinesWith | db_audit_migrate/db_audit_migrate.py:182-246 | the line loop and the deletion pass compute exactly `ConvertLines` |
| DbAuditConvert.ConvertAudit | db_audit_migrate/db_audit_migrate.py:172-248 | `convert_audit` computes exactly `Convert`: None for an unsupported audit, else the joined lines and the warnings |
| Lists.DeleteAt | db_audit_migrate/db_audit_migrate.py:245-246 | `del xs[i]` for ascending valid indices, the largest first, leaves the elements at the other indices, in order |
| Lists.KeptLength | db_audit_migrate/db_audit_migrate.py:243-246 | deleting at distinct valid indices removes exactly that many elements |
| AuditStructure.ExitCode | structure/view_audit_structure.py:104-111 | running out of stack exits with 1, an unbalanced tag with 2 |
| AuditStructure.TagFrom | structure/view_audit_structure.py:13 | the tag found is one of the names, followed by a space, a tab or `>`; none exactly when no name is |
| AuditStructure.OpenRe | structure/view_audit_structure.py:13 | an opening tag names one of the seven tags |
| AuditStructure.CloseRe | structure/view_audit_structure.py:14 | a closing tag names one of the seven tags |
| AuditStructure.OpenNotClose | structure/view_audit_structure.py:13-14 | no line both opens and closes a tag |
| AuditStructure.OpenCustomItem | structure/view_audit_structure.py:13 | `<custom_item>` opens `custom_item` |
| AuditStructure.CloseCustomItem | structure/view_audit_structure.py:14 | `</custom_item>` closes `custom_item` |
| AuditStructure.LongerNameNoTag | structure/view_audit_structure.py:13 | `<items>` opens nothing: a tag name must be followed by a space, a tab or `>` |
| AuditStructure.TagOf | structure/view_audit_structure.py:98-114 | a line is an open exactly when the open pattern matches, and then keeps its text |
| AuditStructure.Structure | structure/view_audit_structure.py:89-116 | no content gives no entries |
| AuditStructure.WalkLines | structure/view_audit_structure.py:97-114 | the loop with its stack computes exactly `Walk` |
| AuditStructure.ComputeAuditStructure | structure/view_audit_structure.py:89-116 | `compute_audit_structure` computes exactly `Structure` over the stripped lines |
| AuditStructure.WalkOrdered | structure/view_audit_structure.py:97-114 | entries are only appended, in increasing line order, each for a later line |
| AuditStructure.WalkDepths | structure/view_audit_structure.py:97-114 | each new entry is an open or description line, shows its text, and records the stack depth the earlier lines left |
| AuditStructure.WalkComplete | structure/view_audit_structure.py:97-114 | every open and description line gets an entry |
| AuditStructure.WalkNeverUnderflows | structure/view_audit_structure.py:102-108 | a finished walk never closed more tags than were open |
| AuditStructure.WalkEntriesOrdered | structure/view_audit_structure.py:100-114 | the entries are in strictly increasing line order |
| AuditStructure.WalkEntriesShown | structure/view_audit_structure.py:98-114 | each entry is `(n+1, depth, text)` of an open or description line, the depth being opens minus closes before it |
| AuditStructure.WalkEntriesComplete | structure/view_audit_structure.py:98-114 | every open and description line has an entry |
| AuditStructure.WalkBalanced | structure/view_audit_structure.py:102-108 | no prefix of a finished walk closes more than it opened |
| AuditStructure.OutOfStackExits | structure/view_audit_structure.py:104-106 | a close with nothing open stops with status 1 |
| AuditStructure.UnbalancedExits | structure/view_audit_structure.py:109-111 | a close of a tag other than the innermost stops with status 2 |
| AuditStructure.NoCloseNoFailure | structure/view_audit_structure.py:97-116 | without closing tags the walk never fails; tags left open at the end are no error |
| Baseline.MakeList | baseline/create_baseline_audit.py:77-83 | None gives `[]`, a list itself, anything else a one-element list |
| Baseline.CheckReference | baseline/create_baseline_audit.py:71-72 | the reference is accepted exactly when it is empty or a plain name, which `$` lets be followed by one final newline; otherwise the exit status is 1 |
| Baseline.CheckReferenceNewline | baseline/create_baseline_audit.py:23 | `abc` with one final newline is accepted; a lone newline, or two after the name, are refused |
| Baseline.FilenameParts | baseline/create_baseline_audit.py:164-165 | the extension holds no dot; with a dot, base name, dot and extension give the file name back; without one the base is empty |
| Baseline.CreateFilenameInjective | baseline/create_baseline_audit.py:163-166 | different hosts get different file names |
| Baseline.StripQuotesText | baseline/create_baseline_audit.py:170-175 | stripping a string fails (IndexError) exactly when it is all whitespace |
| Baseline.Collect | baseline/create_baseline_audit.py:177 | the comprehension succeeds exactly when every element does, with one value per element |
| Baseline.StripQuotes | baseline/create_baseline_audit.py:169-179 | strings are stripped as `StripQuotesText`, lists keep their length, anything else is returned unchanged |
| Baseline.StripQuotesList | baseline/create_baseline_audit.py:176-177 | a list is stripped element by element |
| Baseline.UnquoteQuoted | baseline/create_baseline_audit.py:172-173 | a text between a pair of equal quotes of either kind comes back out of them |
| Baseline.QuoteText | baseline/create_baseline_audit.py:201-204 | a value with `"`, without `'`, for a plugin other than Unix is single-quoted; anything else is double-quoted |
| Baseline.QuoteAndEscape | baseline/create_baseline_audit.py:196-206 | strings are quoted as `QuoteText`, anything else is returned unchanged |
| Baseline.QuoteRoundTrip | baseline/create_baseline_audit.py:196-206 | `strip_quotes` undoes `quote_and_escape_value` unless escaping changed the value |
| Baseline.Deviation | baseline/create_baseline_audit.py:285-289 | `deviation` exactly for FAILED, `compliant` exactly for PASSED, `review` otherwise |
| Baseline.FormatReference | baseline/create_baseline_audit.py:284-290 | the name, a bar, then the verdict |
| Baseline.FormatReferenceHead | baseline/create_baseline_audit.py:265-266 | the entry written for a valid name is recognised as that name's, and holds no quote or comma |
| Baseline.CtypeAt | baseline/create_baseline_audit.py:26 | a header match ends after its start |
| Baseline.PluginFromContents | baseline/create_baseline_audit.py:182-193 | the `check_type` name when exactly one header matches; otherwise, or for a non-string, `Generic` |
| Baseline.NoHeaderGeneric | baseline/create_baseline_audit.py:189-193 | an audit without a header is `Generic` |
| Baseline.FieldRe | baseline/create_baseline_audit.py:22-25 | the group is the indentation before the field name |
| Baseline.KindOf | baseline/create_baseline_audit.py:229-261 | an item end matches `eitem`, a description line carries the indentation its `description` pattern found, a reference line matches the `reference` pattern |
| Baseline.EmptyLinePlain | baseline/create_baseline_audit.py:229-261 | an empty line matches none of the patterns |
| Baseline.ReplaceRefs | baseline/create_baseline_audit.py:264-268 | each entry of the reference that is the name's is replaced by the new entry, the others kept, in place |
| Baseline.RewriteReference | baseline/create_baseline_audit.py:261-275 | a reference line fails (IndexError) exactly when it holds no double quote |
| Baseline.ReplaceRefsTwice | baseline/create_baseline_audit.py:264-268 | replacing again changes nothing, and an entry of the name stays |
| Baseline.NewRefsShape | baseline/create_baseline_audit.py:262-275 | the entries after the rewrite are non-empty, hold the name's entry, are fixed by the rewrite, and hold no quote or comma |
| Baseline.RewriteReferenceIdempotent | baseline/create_baseline_audit.py:261-275 | rewriting a reference line twice gives the line of the first rewrite |
| Baseline.ReplaceRefsLoop | baseline/create_baseline_audit.py:264-271 | the loop over the entries replaces the name's entries and sets `found_ref` exactly when one was found or it already was set |
| Baseline.SourceEntry | baseline/create_baseline_audit.py:265-267 | for a valid name, the script's entry is the name's and holds no quote or comma |
| Baseline.CloseLines | baseline/create_baseline_audit.py:239-247 | an item close inserts a reference line when a name is given and none was found, then a `known_good` line when a description matched, in that order |
| Baseline.Emit | baseline/create_baseline_audit.py:228-277 | each line gives at least itself; only a close adds lines, before it; only a reference line with a name is rewritten; only a description or reference can fail |
| Baseline.RunChunks | baseline/create_baseline_audit.py:228-277 | every input line gives one chunk, in order, that ends with the line itself (rewritten only for a reference line with a name); only a close gives more |
| Baseline.DescriptionThenClose | baseline/create_baseline_audit.py:239-259 | after a matched description, the close writes `known_good` at the description's indentation just before itself and a reference entry first when needed, then resets the state |
| Baseline.Apply | baseline/create_baseline_audit.py:209-281 | no hosts give no audits |
| Baseline.AuditsPerHost | baseline/create_baseline_audit.py:217-279 | one file per host, named by `create_filename`, holding that host's audit |
| Baseline.AuditsKeys | baseline/create_baseline_audit.py:219 | the files written are the earlier ones plus one per later host |
| Baseline.AuditsTexts | baseline/create_baseline_audit.py:217-279 | each later host's file holds that host's audit |
| Baseline.AuditsKeep | baseline/create_baseline_audit.py:279 | a file named after no later host keeps its text |
| Baseline.EmptyContents | baseline/test_create_baseline_audit.py:199-202 | empty content gives every host an empty file |
| Baseline.VisitLine | baseline/create_baseline_audit.py:229-277 | the if/elif chain for a line computes exactly `Emit` |
| Baseline.ScanHost | baseline/create_baseline_audit.py:220-279 | the line loop for one host computes exactly `HostAudit` |
| Baseline.ApplyWith | baseline/create_baseline_audit.py:217-279 | the host loop computes exactly `Audits` |
| Baseline.ApplyValuesToAudit | baseline/create_baseline_audit.py:209-281 | `apply_values_to_audit` computes exactly `Apply` |
| Variables.VarsAt | variables/replace_variables.py:14 | a match of the block pattern ends after its start |
| Variables.TagTextAt | variables/replace_variables.py:15-16 | a match of the name or default pattern ends after its start |
| Variables.Entry | variables/replace_variables.py:118-133 | a block gives its name and default exactly when it has exactly one of each, otherwise the invalid-variable exit |
| Variables.Tabulate | variables/replace_variables.py:117-133 | the table keeps each name once |
| Variables.Variables | variables/replace_variables.py:111-135 | no content or empty content gives the empty table; every table has each name once |
| Variables.TabulateFails | variables/replace_variables.py:117-133 | the loop fails exactly when some block fails, with that block's error |
| Variables.TabulateLookup | variables/replace_variables.py:130 | each name ends with the default of the last block naming it; other names keep their value |
| Variables.VariablesFail | variables/replace_variables.py:122-133 | `get_variables` fails exactly when a block lacks exactly one name and exactly one default |
| Variables.VariablesError | variables/replace_variables.py:131-133 | the only failure is the invalid-variable exit |
| Variables.VariablesLookup | variables/replace_variables.py:117-130 | otherwise every name maps to the default of the last block naming it |
| Variables.TabulateBlocks | variables/replace_variables.py:117-133 | the block loop computes exactly `Tabulate` |
| Variables.GetVariables | variables/replace_variables.py:111-135 | `get_variables` computes exactly `Variables` |
| Variables.Marker | variables/replace_variables.py:147 | `@name@`: two characters longer than the name, `@` at both ends |
| Variables.MarkerNotBlank | variables/replace_variables.py:148 | a line holding a marker is not blank, so `line.strip()[0]` never fails there |
| Variables.Substitute | variables/replace_variables.py:146-159 | notes are only appended, each naming a variable of the table; the only failure is the IndexError of `parts[3]` |
| Variables.Consume | variables/replace_variables.py:164-170 | indices are only appended, each of a later note, in ascending order; the only failure is the KeyError of a note naming no variable |
| Variables.RewriteLength | variables/replace_variables.py:143-175 | one new line per line |
| Variables.ReplaceKeepsLineCount | variables/replace_variables.py:138-177 | the output has exactly the input's number of lines |
| Variables.RewriteNothing | variables/replace_variables.py:143-175 | with no variables every line is kept |
| Variables.ReplaceNoVariables | variables/test_replace_variables.py:121-128 | with no variables the content comes back unchanged |
| Variables.ReplaceEmpty | variables/test_replace_variables.py:112-118 | empty content gives empty content |
| Variables.SubstituteCode | variables/replace_variables.py:148-151 | on a line that is not a comment, each variable's marker is replaced by its value in table order, and no note is queued |
| Variables.SubstituteComment | variables/replace_variables.py:153-159 | a comment line is left as it is and queues one note per variable it names, in table order; with fewer than three `"` that is an IndexError |
| Variables.ConsumeNothing | variables/replace_variables.py:164-170 | notes whose fields the line does not set leave it alone and stay |
| Variables.CommentLineKept | variables/replace_variables.py:143-175 | a comment line comes out as it went in when it sets none of the noted fields |
| Variables.CommentSetsNoField | variables/replace_variables.py:166 | a comment line never sets a field that starts with neither `#` nor whitespace |
| Variables.SourceCommentLineKept | variables/replace_variables.py:143-175 | with the script's patterns, a comment line comes out unchanged unless a note names a field starting with `#` or whitespace |
| Variables.ConsumeOnce | variables/replace_variables.py:164-173 | each note is consumed at most once: the removed indices are distinct and valid, exactly that many notes leave, and every other note stays |
| Variables.NoteConsumed | variables/replace_variables.py:162-173 | a line without `@` that sets the noted field has the note's old value replaced by the variable's value, and the note is gone |
| Variables.LineStepKnown | variables/replace_variables.py:143-175 | notes made by one line name variables of the table; a line can then fail only with IndexError |
| Variables.ReplaceNoKeyError | variables/replace_variables.py:155-168 | the substitution fails only with the IndexError of a note line with fewer than three `"`, never with KeyError |
| Variables.SubstituteLine | variables/replace_variables.py:146-159 | the loop over the variables computes exactly `Substitute` |
| Variables.ConsumeLine | variables/replace_variables.py:162-173 | the loop over the notes and the deletions computes `Consume`, keeping the notes not matched |
| Variables.RewriteLine | variables/replace_variables.py:144-175 | the body of the line loop computes exactly `LineStep` |
| Variables.RewriteLines | variables/replace_variables.py:143-175 | the line loop computes exactly `Rewrite` |
| Variables.ReplaceVariableValues | variables/replace_variables.py:138-177 | `replace_variable_values` computes exactly `Replace` |
| NessusConvert.IndexIn | nessus_convert/nessus_convert.py:44 | `index` gives the first position of the field, or no position exactly when it is absent |
| NessusConvert.FieldOrderKey | nessus_convert/nessus_convert.py:41-46 | a listed field's key is its place in the list, any other field's is 999; the second part is the lower-cased name |
| NessusConvert.ListedFirst | nessus_convert/nessus_convert.py:41-46 | every listed field sorts before every unlisted one |
| NessusConvert.FieldOrderUnique | nessus_convert/nessus_convert.py:27-38 | no field is listed twice |
| NessusConvert.ListedInOrder | nessus_convert/nessus_convert.py:27-46 | listed fields sort in the order of the list |
| NessusConvert.UnlistedByName | nessus_convert/nessus_convert.py:45-46 | unlisted fields sort by lower-cased name |
| NessusConvert.KeyLessOrder | nessus_convert/nessus_convert.py:41-46 | the key order is irreflexive and transitive |
| NessusConvert.KeepFieldSuffix | nessus_convert/nessus_convert.py:262 | a key is kept exactly when it does not end in `_id` |
| NessusConvert.KeptKeys | nessus_convert/nessus_convert.py:261-263 | the kept keys are exactly the keys not ending in `_id` |
| NessusConvert.SanitizedFields | nessus_convert/nessus_convert.py:260-263 | a new record holds exactly the kept keys in their order, each once, with their values |
| NessusConvert.SanitizeIds | nessus_convert/nessus_convert.py:256-266 | one new record per record, in order, each the sanitised record |
| NessusConvert.CommonPrefix | nessus_convert/nessus_convert.py:180-184 | a common prefix of both names that cannot be extended |
| NessusConvert.CommonPrefixIs | nessus_convert/nessus_convert.py:180-184 | a common prefix that cannot be extended is the loop's prefix |
| NessusConvert.CutNameBefore | nessus_convert/nessus_convert.py:186-187 | a name with ` - ` is cut just before an occurrence of ` - ` after which no whole ` - ` follows (so `a - - b` is cut to `a`); one without is kept |
| NessusConvert.Severity | nessus_convert/nessus_convert.py:20-25 | a result has a severity exactly when it is ERROR, FAILED, WARNING or PASSED, and these are 4, 3, 2 and 1 |
| NessusConvert.SeverityOrder | nessus_convert/nessus_convert.py:20-25 | ERROR > FAILED > WARNING > PASSED, and two known results of equal severity are the same result |
| NessusConvert.Rank | nessus_convert/nessus_convert.py:205 | `result_value[r]` exists exactly for the four known results |
| NessusConvert.Field | nessus_convert/nessus_convert.py:181 | `d[k]` exists exactly when the key is there, and is its value |
| NessusConvert.MergeStep | nessus_convert/nessus_convert.py:198-219 | one field can fail only with the KeyError of an unknown result |
| NessusConvert.Merge | nessus_convert/nessus_convert.py:194-219 | merging fields can fail only with KeyError |
| NessusConvert.Summaries | nessus_convert/nessus_convert.py:194-222 | one summary line per item |
| NessusConvert.SortedSet | nessus_convert/nessus_convert.py:225 | `sorted(refs)`: the set's elements, each once, in strictly increasing order |
| NessusConvert.Collapsed | nessus_convert/nessus_convert.py:177-231 | `collapse` can fail only with a KeyError or an IndexError |
| NessusConvert.Finish | nessus_convert/nessus_convert.py:225-229 | the end of `collapse` can fail only with the KeyError of a missing result |
| NessusConvert.IndentValue | nessus_convert/nessus_convert.py:210-213 | the loop over the value's lines computes exactly `Indent` |
| NessusConvert.WorstFrom | nessus_convert/nessus_convert.py:201-206 | from a stored result, the kept result exists exactly when all results are known, and is the most severe of them |
| NessusConvert.WorstOf | nessus_convert/nessus_convert.py:201-206 | no results keep none, one result is kept as it is, several give the most severe when all are known |
| NessusConvert.WorstMany | nessus_convert/nessus_convert.py:205 | several results have a kept one exactly when all are known |
| NessusConvert.WorstMost | nessus_convert/nessus_convert.py:201-206 | the kept one of several results is one of them and the most severe |
| NessusConvert.AgreeFrom | nessus_convert/nessus_convert.py:214-219 | a stored field keeps its value when all later values agree, else it is `multiple` |
| NessusConvert.AgreeOf | nessus_convert/nessus_convert.py:214-219 | a field is the common value of its values, `multiple` when two differ, absent without values |
| NessusConvert.MergeUnmerged | nessus_convert/nessus_convert.py:199-213 | `reference`, `check_name`, `actual_value` and `error` are not merged into the record |
| NessusConvert.MergeStepShape | nessus_convert/nessus_convert.py:214-217 | a field leaves the record as it was, stores its value, or stores `multiple`, at its own key |
| NessusConvert.MergeResult | nessus_convert/nessus_convert.py:201-206 | the stored result follows `Worst` over the results, and the merge fails exactly when `Worst` does |
| NessusConvert.MergeAgree | nessus_convert/nessus_convert.py:214-219 | a merged field follows `Agree` over its values |
| NessusConvert.RefsMembers | nessus_convert/nessus_convert.py:199-200 | the references are exactly the comma-separated parts of every `reference` field |
| NessusConvert.NoteResult | nessus_convert/nessus_convert.py:201-202 | the summary's result is the item's last result |
| NessusConvert.NoteName | nessus_convert/nessus_convert.py:207-208 | the summary's name is the last name with the common name removed |
| NessusConvert.NoteValue | nessus_convert/nessus_convert.py:209-213 | the summary's value is the indented last `actual_value` or `error` |
| NessusConvert.SummariesAt | nessus_convert/nessus_convert.py:222 | summary line `i` is that of item `i` |
| NessusConvert.FinishLookup | nessus_convert/nessus_convert.py:225-229 | the end of `collapse` succeeds exactly when there is a result; it sets the references, the summary text under `error` for ERROR or `actual_value` otherwise, and nothing else |
| NessusConvert.CollapsedParts | nessus_convert/nessus_convert.py:177-231 | a collapse is the merge of all fields from the common name, then the sorted references and the summary lines |
| NessusConvert.CollapsedName | nessus_convert/nessus_convert.py:180-191 | the collapsed name is the longest common prefix of the first two names, cut at ` - ` |
| NessusConvert.CollapsedReference | nessus_convert/nessus_convert.py:225 | the collapsed reference is the sorted, de-duplicated references of all items, joined by commas |
| NessusConvert.CollapsedFails | nessus_convert/nessus_convert.py:177-231 | `collapse` fails exactly when there are fewer than two items, one of the first two has no name, there is no result, or one of several results is unknown |
| NessusConvert.CollapsedResult | nessus_convert/nessus_convert.py:201-206 | the collapsed result is one of the group's results and, among several, the most severe |
| NessusConvert.CollapsedAgree | nessus_convert/nessus_convert.py:214-219 | every other field is the common value of the items that have it, `multiple` when two differ |
| NessusConvert.CollapsedSummary | nessus_convert/nessus_convert.py:222-229 | the summary lines go under `error` when the result is ERROR, under `actual_value` otherwise |
| NessusConvert.MergeField | nessus_convert/nessus_convert.py:198-221 | the body of the field loop computes `MergeStep`, the reference pieces and the summary line's update |
| NessusConvert.MergeItem | nessus_convert/nessus_convert.py:198-221 | the field loop of one item agrees with `Merge`, the references and `Note` |
| NessusConvert.CommonName | nessus_convert/nessus_convert.py:180-187 | the prefix loop and the cut compute exactly `CutName(CommonPrefix(a, b))` |
| NessusConvert.MergeItems | nessus_convert/nessus_convert.py:194-222 | the item loop computes the merge of all fields, the references and the summary lines |
| NessusConvert.Collapse | nessus_convert/nessus_convert.py:177-231 | `collapse` computes exactly `Collapsed` |
| NessusConvert.Emitted | nessus_convert/nessus_convert.py:245-251 | one group can fail only with "No data available", KeyError or IndexError |
| NessusConvert.CollapsedPair | nessus_convert/nessus_convert.py:177-231 | a group of two or more fails only with KeyError |
| NessusConvert.RollupGroups | nessus_convert/nessus_convert.py:237-243 | one group per control id, in first-seen order, each holding the records with that id |
| NessusConvert.RollupNoControl | nessus_convert/nessus_convert.py:238-240 | `rollup` stops with "No control found" exactly when some record has no control id |
| NessusConvert.RollupFails | nessus_convert/nessus_convert.py:245-251 | with all ids present, `rollup` fails exactly when one group's emit does, and then only with KeyError |
| NessusConvert.RollupShape | nessus_convert/nessus_convert.py:234-253 | one record per control id in first-seen order: a single record passes through, a larger group is collapsed |
| NessusConvert.EmittedIs | nessus_convert/nessus_convert.py:246-249 | an emitted group is its only record, or the collapse of its records |
| NessusConvert.EmitGroup | nessus_convert/nessus_convert.py:245-251 | the body of the second loop computes exactly `Emitted` |
| NessusConvert.GroupControls | nessus_convert/nessus_convert.py:237-243 | the first loop computes exactly the grouping, or the error for a record with no id |
| NessusConvert.Rollup | nessus_convert/nessus_convert.py:234-253 | `rollup` computes exactly `RolledUp` |
| Grouping.GroupFrom | nessus_convert/nessus_convert.py:237-243 | the grouping loop succeeds exactly when every element has a key, and then holds every key with its elements |
| Grouping.GroupAll | nessus_convert/nessus_convert.py:237-243 | from an empty dict: each key once, in first-seen order, with exactly the elements that have it |
| Grouping.MapGroupsAll | nessus_convert/nessus_convert.py:245-251 | the loop over the groups succeeds exactly when every group does, with their results in order; otherwise it fails as some group does |

## Left out

- Reading and writing files, argument parsing and `display` (timestamps, verbosity, stdout and stderr) are I/O. A `display(..., exit=n)` is an error value: `AuditStructure.Failure` carries the status of `view_audit_structure.py`, and the other scripts use an `Error` value. Warnings of `convert_audit` are collected as `Warning` values instead of being printed. The `--reference` check of `parse_args` is kept as `Baseline.CheckReference`.
- `get_values_from_nessus`, both `get_compliance_data` functions and the rest of the XML work go through ElementTree, which is not part of this model. The baseline builder takes the findings as a parameter instead: a sequence of hosts, each with a dict from description to `(value, result)`. The roll-up takes records as lists of entries. An XML field without text (`None`) is not modelled, and is taken to be a string.
- The CSV and JSON writers, `output_structure`, `output_audit(s)` and the other scripts (nessus_to_csv, offline_to_sc, parse_wrapper, cli_scanning, batch_create) are not part of this model. They are file writing, XML, subprocess, network or encoding work.
- Python's regex engine is not modelled. Each compiled pattern is a recogniser written for that one pattern, and it decides what the pattern accepts. `$` may end before one final newline, `\s` is Python's Unicode whitespace, the greedy `.*` before `db_type` takes the rightmost viable place, and `[^\2]` is a class that excludes U+0002.
- `Text.Lower` lowers ASCII letters only, so `field_order_key` ties between names with non-ASCII capitals are not modelled as Python orders them.
- `compute_type_and_expect` deletes the NULL members from the caller's own list (db_audit_migrate/sql_util.py:118). The model works on values: the caller's list does not change, and nothing in `convert_audit` reads it again.
- SqlUtil.TokenAt: its contract only bounds the next position. The kinds of the atoms it yields are stated separately by the `…AtomKind` lemmas and `ParsedSlotsOk`.
- SqlUtil.TypeOf has no contract of its own. Its rule priority is covered by the atom-kind lemmas and the `TypeOf…Examples` lemmas.
- DbAuditMigrate.UpdateCheckType: states where the new type ends the line and that it first occurs there. It does not state the text before it, which is the line with every occurrence of the check type replaced.
- DbAuditMigrate.DbTypeRe: `db_type_re` can match a line that `check_type_re` does not (their `.*>` tails differ), so no implication between them is claimed.
- DbAuditMigrate.SelectRe: states only a length bound on the selected text. The column count is taken from it by `DbAuditConvert.ColumnCheckWarns`.
- Variables.SubstituteCode: requires the line to stay a non-comment after each replacement. A replacement that turns a line into a comment part-way through the variables is covered only by `Substitute`'s general contract.
- Variables.SourceCommentLineKept: a comment line is shown unchanged only when no note names a field that starts with `#` or whitespace. If one does, that field's pattern can match the comment line itself.
- Variables.FieldAt: the field of a note is matched as literal text. In `replace_variables.py` it is spliced into a compiled pattern, so a regex metacharacter in a field acts as an operator, and a field that is no valid pattern raises `re.error`; neither is modelled.
- Baseline.QuoteRoundTrip: holds only when the value has no `"` or is single-quoted. Double-quoting escapes an inner `"`, and `strip_quotes` does not undo the escape.
- Baseline.CtypeAt: the contract only bounds where a match ends. The function defines the header pattern that `findall` runs over.
- Variables.VarsAt: the contract only bounds where a match ends. The function defines the block pattern that `findall` runs over.
- Variables.TagTextAt: the contract only bounds where a match ends. The function defines the name and default patterns that `findall` runs over.
- NessusConvert.Collapsed: its own contract names only the error kinds. Its content is stated by the `Collapsed…` lemmas.

## Findings

| source | as written | input that shows it | evidently intended | confidence | as-written member | corrected member |
|---|---|---|---|---|---|---|
| db_audit_migrate/sql_util.py:111 | the guard builds `[v[0] for v in val_expect[1]]`, the first characters of the second member's type and literal, so `'RANGE'` is never in it and the guard never raises | the alternation `[('RANGE', '[1..5]'), ('INTEGER', '4')]` (the expect value `[1..5] \|\| 4`) passes the guard and is collapsed into `"^([1..5]\|4)$"` | any RANGE member of an alternation is refused with the "complex range" error | not executed | SqlUtil.CollapseRangeAlternationExample | SqlUtil.CollapseRejectsRange |

`SqlUtil.Collapse`, and the conversion built on it, follow the guard as
written. `SqlUtil.CollapseMeant` is the corrected definition. By
`SqlUtil.CollapseMeantAgrees` it differs from `Collapse` only on
alternations that hold a range member.
