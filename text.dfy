/** The parts of Python's `str` that the audit scripts rely on, written out
    over `seq<char>`: whitespace, strip, split, join, replace, find, lower and
    the code-point ordering used by `sorted`. */
module Text {
  import opened Wrappers

  /** Python's `str.isspace()`, which is also the class `\s` of a str pattern. */
  predicate IsSpace(c: char) {
    var n := c as int;
    (9 <= n <= 13) || (28 <= n <= 32) || n == 0x85 || n == 0xA0 || n == 0x1680
    || (0x2000 <= n <= 0x200A) || n == 0x2028 || n == 0x2029 || n == 0x202F
    || n == 0x205F || n == 0x3000
  }

  /** The class `[ \t]`. */
  predicate IsBlank(c: char) { c == ' ' || c == '\t' }

  predicate IsDigit(c: char) { '0' <= c <= '9' }

  predicate AllDigits(s: string) { forall i :: 0 <= i < |s| ==> IsDigit(s[i]) }

  predicate AllSpace(s: string) { forall i :: 0 <= i < |s| ==> IsSpace(s[i]) }

  /** `p` occurs in `s` at index `j`. */
  predicate At(s: string, j: int, p: string) {
    0 <= j && j + |p| <= |s| && s[j..j + |p|] == p
  }

  predicate StartsWith(s: string, p: string) { At(s, 0, p) }

  predicate EndsWith(s: string, p: string) { |p| <= |s| && At(s, |s| - |p|, p) }

  /** `s.lstrip()` (also the effect of a leading `\s*`). */
  function LStrip(s: string): (r: string)
    ensures |r| <= |s| && r == s[|s| - |r|..]
    ensures r == [] || !IsSpace(r[0])
    ensures AllSpace(s[..|s| - |r|])
  {
    if s != [] && IsSpace(s[0]) then LStrip(s[1..]) else s
  }

  /** `s.rstrip()`. */
  function RStrip(s: string): (r: string)
    ensures |r| <= |s| && r == s[..|r|]
    ensures r == [] || !IsSpace(r[|r| - 1])
    ensures AllSpace(s[|r|..])
  {
    if s != [] && IsSpace(s[|s| - 1]) then
      var t := s[..|s| - 1];
      var r := RStrip(t);
      assert t[..|r|] == s[..|r|];
      assert s[|r|..] == t[|r|..] + [s[|s| - 1]];
      r
    else s
  }

  /** `s.strip()`. */
  function Strip(s: string): (r: string)
    ensures |r| <= |s|
    ensures r == [] || (!IsSpace(r[0]) && !IsSpace(r[|r| - 1]))
    ensures AllSpace(s) <==> r == []
  {
    var l := LStrip(s);
    var r := RStrip(l);
    assert r != [] ==> r[0] == l[0];
    r
  }

  /** Every string trimmed. */
  function StripAll(parts: seq<string>): (r: seq<string>)
    ensures |r| == |parts| && forall k :: 0 <= k < |parts| ==> r[k] == Strip(parts[k])
  {
    if parts == [] then [] else [Strip(parts[0])] + StripAll(parts[1..])
  }

  /** The end of the run of `[ \t]` that starts at index `j`: where a
      `[ \t]*` in a pattern stops. */
  function BlankRunEnd(s: string, j: nat): (k: nat)
    requires j <= |s|
    ensures j <= k <= |s| && (k == |s| || !IsBlank(s[k]))
    decreases |s| - j
  {
    if j < |s| && IsBlank(s[j]) then BlankRunEnd(s, j + 1) else j
  }

  /** `s.lstrip(chars)`, `s.rstrip(chars)` and `s.strip(chars)`. */
  function LStripChars(s: string, cs: set<char>): (r: string)
    ensures |r| <= |s|
    ensures r == [] || r[0] !in cs
  {
    if s != [] && s[0] in cs then LStripChars(s[1..], cs) else s
  }

  function RStripChars(s: string, cs: set<char>): (r: string)
    ensures |r| <= |s| && r == s[..|r|]
    ensures r == [] || r[|r| - 1] !in cs
  {
    if s != [] && s[|s| - 1] in cs then RStripChars(s[..|s| - 1], cs) else s
  }

  function StripChars(s: string, cs: set<char>): (r: string)
    ensures r == [] || (r[0] !in cs && r[|r| - 1] !in cs)
  {
    RStripChars(LStripChars(s, cs), cs)
  }

  /** First index at or after `from` holding `c` (`s.index(c, from)`, which
      raises when there is none). */
  function FindFrom(s: string, c: char, from: nat): (r: Option<nat>)
    ensures r.Some? ==> from <= r.value < |s| && s[r.value] == c
    ensures r.Some? ==> forall k :: from <= k < r.value ==> s[k] != c
    ensures r.None? ==> forall k :: from <= k < |s| ==> s[k] != c
    decreases |s| - from
  {
    if from >= |s| then None
    else if s[from] == c then Some(from)
    else FindFrom(s, c, from + 1)
  }

  /** First occurrence of `p` in `s` (`s.find(p)`, with None for -1). */
  function IndexOf(s: string, p: string): (r: Option<nat>)
    ensures r.Some? ==> At(s, r.value, p)
    ensures r.Some? ==> forall j :: 0 <= j < r.value ==> !At(s, j, p)
    ensures r.None? ==> forall j :: !At(s, j, p)
  {
    if At(s, 0, p) then Some(0)
    else if |s| <= |p| then None
    else
      AtShift(s, p);
      match IndexOf(s[1..], p)
      case None => None
      case Some(k) => Some(k + 1)
  }

  /** The first occurrence is the one with none before it. */
  lemma IndexOfAt(s: string, p: string, k: nat)
    requires At(s, k, p) && forall j :: 0 <= j < k ==> !At(s, j, p)
    ensures IndexOf(s, p) == Some(k)
  {
    var r := IndexOf(s, p);
    assert r.Some?;
    assert !(r.value < k);
    assert !(r.value > k);
  }

  /** An occurrence of `p` at `j` fixes the characters from `j` on. */
  lemma AtChars(s: string, j: int, p: string)
    requires At(s, j, p)
    ensures forall i :: 0 <= i < |p| ==> s[j + i] == p[i]
  {
    forall i | 0 <= i < |p|
      ensures s[j + i] == p[i]
    {
      assert s[j..j + |p|][i] == s[j + i];
    }
  }

  /** An occurrence in the tail is an occurrence one place further on. */
  lemma AtShift(s: string, p: string)
    requires s != []
    ensures forall j {:trigger At(s, j, p)} :: 1 <= j ==> (At(s, j, p) <==> At(s[1..], j - 1, p))
    ensures forall j {:trigger At(s[1..], j, p)} :: At(s[1..], j, p) ==> At(s, j + 1, p)
  {
    forall j | 0 <= j ensures At(s[1..], j, p) <==> At(s, j + 1, p) {
      if j + |p| <= |s| - 1 {
        assert s[1..][j..j + |p|] == s[j + 1..j + 1 + |p|];
      }
    }
  }

  /** An occurrence in a prefix is an occurrence in the whole. */
  lemma AtPrefix(s: string, n: nat, p: string)
    requires n <= |s|
    ensures forall j :: At(s[..n], j, p) <==> (At(s, j, p) && j + |p| <= n)
  {
    forall j ensures At(s[..n], j, p) <==> (At(s, j, p) && j + |p| <= n) {
      if 0 <= j && j + |p| <= n {
        assert s[..n][j..j + |p|] == s[j..j + |p|];
      }
    }
  }

  /** `p in s` for strings. */
  predicate Contains(s: string, p: string) { IndexOf(s, p).Some? }

  lemma ContainsAt(s: string, p: string, j: int)
    requires At(s, j, p)
    ensures Contains(s, p)
  {
  }

  /** Every slice of `s` occurs in `s`. */
  lemma ContainsSlice(s: string, i: nat, j: nat)
    requires i <= j <= |s|
    ensures Contains(s, s[i..j])
  {
    ContainsAt(s, s[i..j], i);
  }

  /** Last occurrence of `p` in `s` (`s.rfind(p)`). */
  function LastIndexOf(s: string, p: string): (r: Option<nat>)
    ensures r.Some? ==> At(s, r.value, p)
    ensures r.Some? ==> forall j :: r.value < j ==> !At(s, j, p)
    ensures r.None? ==> forall j :: !At(s, j, p)
  {
    if |s| < |p| then None
    else if At(s, |s| - |p|, p) then Some(|s| - |p|)
    else
      AtPrefix(s, |s| - 1, p);
      LastIndexOf(s[..|s| - 1], p)
  }

  /** `s.replace(p, r)`: every non-overlapping occurrence of `p`, found left to
      right, is replaced; an empty `p` inserts `r` around every character. */
  function ReplaceAll(s: string, p: string, r: string): string
    decreases |s|
  {
    if p == [] then
      (if s == [] then r else r + [s[0]] + ReplaceAll(s[1..], p, r))
    else if At(s, 0, p) then r + ReplaceAll(s[|p|..], p, r)
    else if s == [] then []
    else [s[0]] + ReplaceAll(s[1..], p, r)
  }

  /** Replacing a pattern that does not occur changes nothing. */
  lemma {:induction false} ReplaceAllAbsent(s: string, p: string, r: string)
    requires p != [] && !Contains(s, p)
    ensures ReplaceAll(s, p, r) == s
  {
    if s != [] {
      assert !At(s, 0, p);
      AtShift(s, p);
      ReplaceAllAbsent(s[1..], p, r);
    }
  }

  /** Replacing a pattern that does occur leaves an occurrence of the
      replacement. */
  lemma {:induction false} ReplaceAllIntroduces(s: string, p: string, r: string)
    requires p != [] && Contains(s, p)
    ensures Contains(ReplaceAll(s, p, r), r)
  {
    if At(s, 0, p) {
      ContainsAt(ReplaceAll(s, p, r), r, 0);
    } else {
      var j := IndexOf(s, p).value;
      assert At(s[1..], j - 1, p);
      ContainsAt(s[1..], p, j - 1);
      ReplaceAllIntroduces(s[1..], p, r);
      var t := ReplaceAll(s[1..], p, r);
      var k := IndexOf(t, r).value;
      assert ReplaceAll(s, p, r) == [s[0]] + t;
      assert At([s[0]] + t, k + 1, r);
      ContainsAt([s[0]] + t, r, k + 1);
    }
  }

  /** `s.split(c)` for a one-character separator. */
  function Split(s: string, c: char): (r: seq<string>)
    ensures |r| >= 1
    ensures forall i, k :: 0 <= i < |r| && 0 <= k < |r[i]| ==> r[i][k] != c
  {
    if s == [] then [""]
    else
      var rest := Split(s[1..], c);
      if s[0] == c then [""] + rest else [[s[0]] + rest[0]] + rest[1..]
  }

  /** `sep.join(parts)`. */
  function Join(parts: seq<string>, sep: string): string
  {
    if |parts| == 0 then ""
    else if |parts| == 1 then parts[0]
    else parts[0] + sep + Join(parts[1..], sep)
  }

  /** Text put before the first piece comes first in the join. */
  lemma JoinFirst(p: string, parts: seq<string>, sep: string)
    requires parts != []
    ensures Join([p + parts[0]] + parts[1..], sep) == p + Join(parts, sep)
  {
    var r := [p + parts[0]] + parts[1..];
    assert r[1..] == parts[1..];
    if |parts| > 1 {
      assert Join(r, sep) == (p + parts[0]) + sep + Join(parts[1..], sep);
    }
  }

  /** An empty first piece leaves just the separator in front. */
  lemma JoinEmptyFirst(parts: seq<string>, sep: string)
    requires parts != []
    ensures Join([""] + parts, sep) == sep + Join(parts, sep)
  {
    assert ([""] + parts)[1..] == parts;
  }

  /** Joining the pieces of a split gives back the string. */
  lemma {:induction false} JoinSplit(s: string, c: char)
    ensures Join(Split(s, c), [c]) == s
  {
    if s != [] {
      var rest := Split(s[1..], c);
      JoinSplit(s[1..], c);
      if s[0] != c {
        JoinFirst([s[0]], rest, [c]);
      } else {
        JoinEmptyFirst(rest, [c]);
      }
      assert s == [s[0]] + s[1..];
    }
  }

  /** Without the separator, `s.split(c)` is `[s]`. */
  lemma {:induction false} SplitNone(s: string, c: char)
    requires c !in s
    ensures Split(s, c) == [s]
  {
    if s != [] {
      assert c !in s[1..];
      SplitNone(s[1..], c);
      assert [s[0]] + s[1..] == s;
    }
  }

  /** A separator after a separator-free prefix ends the first piece. */
  lemma {:induction false} SplitAt(a: string, b: string, c: char)
    requires c !in a
    ensures Split(a + [c] + b, c) == [a] + Split(b, c)
  {
    var s := a + [c] + b;
    if a != [] {
      assert s[1..] == a[1..] + [c] + b;
      assert c !in a[1..];
      SplitAt(a[1..], b, c);
      assert [a[0]] + a[1..] == a;
    } else {
      assert s[1..] == b;
    }
  }

  /** A string without the first character of `p` does not contain `p`. */
  lemma AbsentFirst(s: string, p: string)
    requires p != [] && p[0] !in s
    ensures !Contains(s, p)
  {
  }

  /** Number of occurrences of `c` in `s`. */
  function Count(s: string, c: char): nat
  {
    if s == [] then 0 else (if s[0] == c then 1 else 0) + Count(s[1..], c)
  }

  /** `s.split(c)` has one piece more than `s` has separators. */
  lemma {:induction false} SplitLength(s: string, c: char)
    ensures |Split(s, c)| == Count(s, c) + 1
  {
    if s != [] { SplitLength(s[1..], c); }
  }

  /** Splitting a join of separator-free pieces gives the pieces back. */
  lemma {:induction false} SplitJoin(parts: seq<string>, c: char)
    requires parts != [] && forall k :: 0 <= k < |parts| ==> c !in parts[k]
    ensures Split(Join(parts, [c]), c) == parts
  {
    if |parts| == 1 {
      SplitNone(parts[0], c);
    } else {
      SplitJoin(parts[1..], c);
      SplitAt(parts[0], Join(parts[1..], [c]), c);
      assert [parts[0]] + parts[1..] == parts;
    }
  }

  /** Joining one more piece adds the separator and that piece. */
  lemma {:induction false} JoinSnoc(xs: seq<string>, y: string, sep: string)
    requires xs != []
    ensures Join(xs + [y], sep) == Join(xs, sep) + sep + y
  {
    if |xs| > 1 {
      assert (xs + [y])[1..] == xs[1..] + [y];
      JoinSnoc(xs[1..], y, sep);
    }
  }

  /** All pieces of a split but the last, joined again, are the text before
      the last separator. */
  lemma SplitInit(s: string, c: char)
    requires |Split(s, c)| >= 2
    ensures var p := Split(s, c);
      Join(p[..|p| - 1], [c]) + [c] + p[|p| - 1] == s
  {
    var p := Split(s, c);
    assert p[..|p| - 1] + [p[|p| - 1]] == p;
    JoinSnoc(p[..|p| - 1], p[|p| - 1], [c]);
    JoinSplit(s, c);
  }

  /** `s.split(c)` has one piece exactly when `c` does not occur. */
  lemma SplitSingle(s: string, c: char)
    ensures |Split(s, c)| == 1 <==> c !in s
  {
    if c !in s {
      SplitNone(s, c);
    } else {
      JoinSplit(s, c);
    }
  }

  /** `s.split(sep)` for a non-empty separator: the pieces between the
      occurrences of `sep` found left to right without overlap. */
  function SplitOn(s: string, sep: string): (r: seq<string>)
    requires sep != []
    ensures |r| >= 1
    decreases |s|
  {
    if At(s, 0, sep) then [""] + SplitOn(s[|sep|..], sep)
    else if s == [] then [""]
    else
      var rest := SplitOn(s[1..], sep);
      [[s[0]] + rest[0]] + rest[1..]
  }

  /** Joining the pieces of `s.split(sep)` with `sep` gives back `s`. */
  lemma {:induction false} JoinSplitOn(s: string, sep: string)
    requires sep != []
    ensures Join(SplitOn(s, sep), sep) == s
    decreases |s|
  {
    if At(s, 0, sep) {
      JoinSplitOn(s[|sep|..], sep);
      JoinEmptyFirst(SplitOn(s[|sep|..], sep), sep);
      assert s == s[..|sep|] + s[|sep|..];
    } else if s != [] {
      JoinSplitOn(s[1..], sep);
      JoinFirst([s[0]], SplitOn(s[1..], sep), sep);
      assert s == [s[0]] + s[1..];
    }
  }

  /** The last piece of `s.split(sep)` holds no `sep`. */
  lemma {:induction false} SplitOnLast(s: string, sep: string)
    requires sep != []
    ensures var p := SplitOn(s, sep); !Contains(p[|p| - 1], sep)
    decreases |s|
  {
    if At(s, 0, sep) {
      SplitOnLast(s[|sep|..], sep);
    } else if s != [] {
      var rest := SplitOn(s[1..], sep);
      SplitOnLast(s[1..], sep);
      if |rest| == 1 {
        JoinSplitOn(s[1..], sep);
        assert rest[0] == s[1..];
        assert [s[0]] + rest[0] == s;
        NoSepCons(s, sep);
      }
    }
  }

  /** A text that does not start with `sep` and whose tail holds no `sep`
      holds none. */
  lemma NoSepCons(s: string, sep: string)
    requires s != [] && !At(s, 0, sep) && !Contains(s[1..], sep)
    ensures !Contains(s, sep)
  {
    AtShift(s, sep);
    forall j ensures !At(s, j, sep) {
      if j >= 1 { assert !At(s[1..], j - 1, sep); }
    }
  }

  /** With `sep` in `s`, the pieces but the last, joined again, are the
      text before an occurrence after which no whole `sep` follows. */
  lemma SplitOnInit(s: string, sep: string)
    requires sep != [] && Contains(s, sep)
    ensures var p := SplitOn(s, sep);
      |p| >= 2 && Join(p[..|p| - 1], sep) + sep + p[|p| - 1] == s && !Contains(p[|p| - 1], sep)
  {
    var p := SplitOn(s, sep);
    SplitOnLast(s, sep);
    JoinSplitOn(s, sep);
    assert p[..|p| - 1] + [p[|p| - 1]] == p;
    JoinSnoc(p[..|p| - 1], p[|p| - 1], sep);
  }

  /** Stripping a text without outer whitespace leaves it. */
  lemma StripKeeps(s: string)
    requires s != [] && !IsSpace(s[0]) && !IsSpace(s[|s| - 1])
    ensures Strip(s) == s
  {
  }

  /** The first character `s.strip()` keeps is the first one `s.lstrip()`
      keeps. */
  lemma StripFirst(s: string)
    ensures Strip(s) != [] ==> LStrip(s) != [] && Strip(s)[0] == LStrip(s)[0]
  {
  }

  /** Python's `s[1:-1]`: the text without its first and last characters,
      empty for fewer than two. */
  function Inner(s: string): (r: string)
    ensures |s| >= 2 ==> r == s[1..|s| - 1]
    ensures |s| < 2 ==> r == []
  {
    if |s| >= 2 then s[1..|s| - 1] else []
  }

  /** The pieces of a split hold no character the text does not. */
  lemma {:induction false} SplitFree(s: string, sep: char, c: char)
    requires c !in s
    ensures forall k :: 0 <= k < |Split(s, sep)| ==> c !in Split(s, sep)[k]
  {
    if s != [] {
      assert c !in s[1..];
      SplitFree(s[1..], sep, c);
    }
  }

  /** A join holds no character that neither the pieces nor the separator
      hold. */
  lemma {:induction false} JoinFree(parts: seq<string>, sep: string, c: char)
    requires c !in sep && forall k :: 0 <= k < |parts| ==> c !in parts[k]
    ensures c !in Join(parts, sep)
  {
    if |parts| > 1 {
      JoinFree(parts[1..], sep, c);
    }
  }

  /** ASCII upper-case letters lowered, as `str.lower()` does for them. */
  function LowerChar(c: char): char
  {
    if 'A' <= c <= 'Z' then (c as int + 32) as char else c
  }

  function Lower(s: string): (r: string)
    ensures |r| == |s| && forall i :: 0 <= i < |s| ==> r[i] == LowerChar(s[i])
  {
    if s == [] then [] else [LowerChar(s[0])] + Lower(s[1..])
  }

  /** Python's `<` on strings: lexicographic by code point. */
  predicate LexLess(a: string, b: string)
  {
    if a == [] then b != []
    else if b == [] then false
    else if a[0] != b[0] then a[0] < b[0]
    else LexLess(a[1..], b[1..])
  }

  lemma {:induction false} LexLessIrreflexive(a: string)
    ensures !LexLess(a, a)
  {
    if a != [] { LexLessIrreflexive(a[1..]); }
  }

  lemma {:induction false} LexLessTransitive(a: string, b: string, c: string)
    requires LexLess(a, b) && LexLess(b, c)
    ensures LexLess(a, c)
  {
    if a != [] && b != [] && c != [] && a[0] == b[0] && b[0] == c[0] {
      LexLessTransitive(a[1..], b[1..], c[1..]);
    }
  }

  lemma {:induction false} LexLessTotal(a: string, b: string)
    requires a != b
    ensures LexLess(a, b) || LexLess(b, a)
  {
    if a != [] && b != [] && a[0] == b[0] {
      LexLessTotal(a[1..], b[1..]);
    }
  }

  /** Python's `str(x)` of a non-negative int. */
  function NatToString(n: nat): (r: string)
    ensures |r| >= 1 && AllDigits(r)
  {
    if n < 10 then [('0' as int + n) as char]
    else NatToString(n / 10) + [('0' as int + n % 10) as char]
  }
}
