/** The pieces of Python's `str` behaviour the modelled code relies on: `strip`,
    `splitlines`, `split`, `join`, `replace`, `startswith`/`endswith`, `in`,
    `lower`, `<`, `int()` on decimal text and `str()` of a natural number. */
module PyStr {
  import opened Wrappers

  /** The characters for which `str.isspace()` holds: what `str.strip()` removes
      and what the regular-expression class `\s` matches. */
  const Whitespace: set<char> := {
    '\t', '\n', '\U{B}', '\U{C}', '\r', '\U{1C}', '\U{1D}', '\U{1E}', '\U{1F}', ' ',
    '\U{85}', '\U{A0}', '\U{1680}', '\U{2000}', '\U{2001}', '\U{2002}', '\U{2003}',
    '\U{2004}', '\U{2005}', '\U{2006}', '\U{2007}', '\U{2008}', '\U{2009}', '\U{200A}',
    '\U{2028}', '\U{2029}', '\U{202F}', '\U{205F}', '\U{3000}' }

  /** The line boundaries of `str.splitlines()`; "\r\n" is a single boundary. */
  const LineBreaks: set<char> := {
    '\n', '\r', '\U{B}', '\U{C}', '\U{1C}', '\U{1D}', '\U{1E}', '\U{85}', '\U{2028}', '\U{2029}' }

  // ---------------------------------------------------------------- strip

  /** `s.lstrip(chars)` with `drop` as the character set. */
  function TrimLeft<T>(s: seq<T>, drop: set<T>): (r: seq<T>)
    ensures |r| <= |s| && r == s[|s| - |r|..]
    ensures r != [] ==> r[0] !in drop
    ensures forall i :: 0 <= i < |s| - |r| ==> s[i] in drop
  {
    if s != [] && s[0] in drop then TrimLeft(s[1..], drop) else s
  }

  /** `s.rstrip(chars)` with `drop` as the character set. */
  function TrimRight<T>(s: seq<T>, drop: set<T>): (r: seq<T>)
    ensures |r| <= |s| && r == s[..|r|]
    ensures r != [] ==> r[|r| - 1] !in drop
    ensures forall i :: |r| <= i < |s| ==> s[i] in drop
  {
    if s != [] && s[|s| - 1] in drop then TrimRight(s[..|s| - 1], drop) else s
  }

  /** `s.strip(chars)`: every leading and every trailing character in `drop` goes. */
  function Trim<T>(s: seq<T>, drop: set<T>): (r: seq<T>)
    ensures |r| <= |s|
    ensures r != [] ==> r[0] !in drop && r[|r| - 1] !in drop
  {
    TrimRight(TrimLeft(s, drop), drop)
  }

  /** What `strip` keeps is the slice of `s` between the leading and the trailing
      `drop` characters, and everything it removes is a `drop` character. */
  lemma TrimMiddle<T>(s: seq<T>, drop: set<T>)
    ensures var r, l := Trim(s, drop), |s| - |TrimLeft(s, drop)|;
      && l + |r| <= |s| && r == s[l..l + |r|]
      && (forall i :: 0 <= i < l ==> s[i] in drop)
      && (forall i :: l + |r| <= i < |s| ==> s[i] in drop)
  {
    TrimSlice(s, drop);
    TrimTail(s, drop);
  }

  lemma TrimSlice<T>(s: seq<T>, drop: set<T>)
    ensures var r, l := Trim(s, drop), |s| - |TrimLeft(s, drop)|;
      l + |r| <= |s| && r == s[l..l + |r|]
  {
    MiddleSlice(s, |s| - |TrimLeft(s, drop)|, |Trim(s, drop)|);
  }

  lemma TrimTail<T>(s: seq<T>, drop: set<T>)
    ensures var r, l := Trim(s, drop), |s| - |TrimLeft(s, drop)|;
      forall i :: l + |r| <= i < |s| ==> s[i] in drop
  {
    SuffixIndex(s, |s| - |TrimLeft(s, drop)|);
  }

  /** A prefix of a suffix is a middle slice. */
  lemma MiddleSlice<T>(s: seq<T>, l: nat, n: nat)
    ensures l + n <= |s| ==> s[l..][..n] == s[l..l + n]
  {
  }

  /** Indexing a suffix is indexing the whole, shifted. */
  lemma SuffixIndex<T>(s: seq<T>, l: nat)
    ensures l <= |s| ==> forall i :: l <= i < |s| ==> s[i] == s[l..][i - l]
  {
  }

  /** `s.strip()` */
  function Strip(s: string): string {
    Trim(s, Whitespace)
  }

  /** `s.strip('"')`: all leading and trailing double quotes, not just one pair. */
  function StripQuotes(s: string): string {
    Trim(s, {'"'})
  }

  lemma TrimNoop(s: string, drop: set<char>)
    requires s == [] || (s[0] !in drop && s[|s| - 1] !in drop)
    ensures Trim(s, drop) == s
  {
  }

  lemma TrimIdempotent(s: string, drop: set<char>)
    ensures Trim(Trim(s, drop), drop) == Trim(s, drop)
  {
    TrimNoop(Trim(s, drop), drop);
  }

  /** A string that is all `drop` characters trims to nothing. */
  lemma TrimAllDropped(s: string, drop: set<char>)
    requires forall i :: 0 <= i < |s| ==> s[i] in drop
    ensures Trim(s, drop) == []
  {
  }

  // ---------------------------------------------------------------- prefixes and search

  predicate StartsWith(s: string, p: string) {
    |p| <= |s| && s[..|p|] == p
  }

  predicate EndsWith(s: string, p: string) {
    |p| <= |s| && s[|s| - |p|..] == p
  }

  /** `sub in s` */
  predicate Contains(s: string, sub: string)
    decreases |s|
  {
    StartsWith(s, sub) || (s != [] && Contains(s[1..], sub))
  }

  lemma {:induction false} ContainsAt(s: string, sub: string, i: nat)
    requires i + |sub| <= |s| && s[i..i + |sub|] == sub
    ensures Contains(s, sub)
  {
    if i > 0 {
      assert s[1..][i - 1..i - 1 + |sub|] == sub;
      ContainsAt(s[1..], sub, i - 1);
    }
  }

  lemma {:induction false} ContainsLength(s: string, sub: string)
    requires Contains(s, sub)
    ensures |sub| <= |s|
  {
    if !StartsWith(s, sub) {
      ContainsLength(s[1..], sub);
    }
  }

  /** Index of the first character of `s` in `stop`, or `|s|` when there is none. */
  function FirstIn(s: string, stop: set<char>): (j: nat)
    ensures j <= |s|
    ensures forall k :: 0 <= k < j ==> s[k] !in stop
    ensures j < |s| ==> s[j] in stop
  {
    if s == [] || s[0] in stop then 0 else 1 + FirstIn(s[1..], stop)
  }

  lemma {:induction false} FirstInAppend(a: string, b: string, stop: set<char>)
    requires forall k :: 0 <= k < |a| ==> a[k] !in stop
    ensures FirstIn(a + b, stop) == |a| + FirstIn(b, stop)
  {
    if a != [] {
      assert (a + b)[1..] == a[1..] + b;
      FirstInAppend(a[1..], b, stop);
    } else {
      assert a + b == b;
    }
  }

  // ---------------------------------------------------------------- case

  /** ASCII case folding of one character. */
  function LowerChar(c: char): char {
    if 'A' <= c <= 'Z' then (c as int + 32) as char else c
  }

  /** `s.lower()`, for the ASCII letters. */
  function Lower(s: string): string {
    seq(|s|, i requires 0 <= i < |s| => LowerChar(s[i]))
  }

  // ---------------------------------------------------------------- lines

  /** No line boundary occurs in `l`. */
  predicate NoBreak(l: string) {
    forall k :: 0 <= k < |l| ==> l[k] !in LineBreaks
  }

  /** Width of the line boundary at `s[j]`: 2 for "\r\n", 1 otherwise. */
  function BreakWidth(s: string, j: nat): nat
    requires j < |s|
  {
    if s[j] == '\r' && j + 1 < |s| && s[j + 1] == '\n' then 2 else 1
  }

  /** `s.splitlines()`: no line keeps its boundary, and a final boundary does not
      open an empty last line. */
  function SplitLines(s: string): (lines: seq<string>)
    ensures forall i :: 0 <= i < |lines| ==> NoBreak(lines[i])
    decreases |s|
  {
    if s == [] then []
    else
      var j := FirstIn(s, LineBreaks);
      if j == |s| then [s]
      else [s[..j]] + SplitLines(s[j + BreakWidth(s, j)..])
  }

  /** `sep.join(parts)` */
  function Join(parts: seq<string>, sep: string): string {
    if parts == [] then ""
    else if |parts| == 1 then parts[0]
    else parts[0] + sep + Join(parts[1..], sep)
  }

  lemma {:induction false} JoinAppend(parts: seq<string>, last: string, sep: string)
    requires parts != []
    ensures Join(parts + [last], sep) == Join(parts, sep) + sep + last
  {
    if |parts| == 1 {
      assert parts + [last] == [parts[0], last];
    } else {
      assert (parts + [last])[1..] == parts[1..] + [last];
      JoinAppend(parts[1..], last, sep);
    }
  }

  /** A line free of boundaries followed by "\n" is the first line. */
  lemma SplitLinesFirst(a: string, b: string)
    requires NoBreak(a)
    ensures SplitLines(a + "\n" + b) == [a] + SplitLines(b)
  {
    AroundSlices(a, '\n', b);
    FirstInAppend(a, "\n" + b, LineBreaks);
  }

  /** Lines joined by "\n" split back into the same lines, as long as none of them
      holds a boundary and the last one is not empty. */
  lemma {:induction false} SplitJoinLines(lines: seq<string>)
    requires forall i :: 0 <= i < |lines| ==> NoBreak(lines[i])
    requires lines != [] ==> lines[|lines| - 1] != ""
    ensures SplitLines(Join(lines, "\n")) == lines
  {
    if |lines| == 1 {
      FirstInAppend(lines[0], "", LineBreaks);
      AppendNil(lines[0]);
    } else if |lines| > 1 {
      SplitLinesFirst(lines[0], Join(lines[1..], "\n"));
      SplitJoinLines(lines[1..]);
      FirstSplit(lines);
    }
  }

  // ---------------------------------------------------------------- split on a character

  /** `s.split(sep)` for a one-character separator: always at least one part. */
  function Split(s: string, sep: char): (parts: seq<string>)
    ensures |parts| >= 1
    decreases |s|
  {
    var i := FirstIn(s, {sep});
    if i == |s| then [s] else [s[..i]] + Split(s[i + 1..], sep)
  }

  /** No part holds the separator. */
  lemma {:induction false} SplitPartsFree(s: string, sep: char)
    ensures forall p :: p in Split(s, sep) ==> sep !in p
    decreases |s|
  {
    var i := FirstIn(s, {sep});
    if i < |s| {
      SplitPartsFree(s[i + 1..], sep);
    }
  }

  /** Joining the parts with the separator gives the string back. */
  lemma {:induction false} JoinSplit(s: string, sep: char)
    ensures Join(Split(s, sep), [sep]) == s
    decreases |s|
  {
    var i := FirstIn(s, {sep});
    if i < |s| {
      JoinSplit(s[i + 1..], sep);
      JoinCons(s[..i], Split(s[i + 1..], sep), [sep]);
      AroundIndex(s, i);
    }
  }

  lemma JoinCons(a: string, ps: seq<string>, sep: string)
    requires ps != []
    ensures Join([a] + ps, sep) == a + sep + Join(ps, sep)
  {
    assert ([a] + ps)[1..] == ps;
  }

  /** Where the pieces of `a + [c] + b` sit. */
  lemma AroundSlices(a: string, c: char, b: string)
    ensures var s := a + [c] + b;
      && s == a + ([c] + b) && s[..|a|] == a && s[|a| + 1..] == b
  {
  }

  /** The first part ends at the first separator. */
  lemma SplitFirstPart(a: string, sep: char, b: string)
    requires sep !in a
    ensures Split(a + [sep] + b, sep) == [a] + Split(b, sep)
  {
    AroundSlices(a, sep, b);
    FirstInAppend(a, [sep] + b, {sep});
  }

  /** Splitting parts joined by a separator none of them holds gives the parts back. */
  lemma {:induction false} SplitJoin(parts: seq<string>, sep: char)
    requires parts != []
    requires forall p :: p in parts ==> sep !in p
    ensures Split(Join(parts, [sep]), sep) == parts
  {
    assert parts[0] in parts;
    if |parts| == 1 {
      SplitWhole(parts[0], sep);
    } else {
      SplitFirstPart(parts[0], sep, Join(parts[1..], [sep]));
      SplitJoin(parts[1..], sep);
      FirstSplit(parts);
    }
  }

  /** Joining two lists of pieces: the joined texts, with one separator between. */
  lemma {:induction false} JoinConcat(p: seq<string>, q: seq<string>, sep: string)
    requires p != [] && q != []
    ensures Join(p + q, sep) == Join(p, sep) + sep + Join(q, sep)
  {
    if |p| == 1 {
      assert (p + q)[1..] == q;
    } else {
      assert (p + q)[1..] == p[1..] + q;
      JoinConcat(p[1..], q, sep);
    }
  }

  /** A separator splits the text around it: the pieces of each side, side by side. */
  lemma SplitAround(a: string, b: string, sep: char)
    ensures Split(a + [sep] + b, sep) == Split(a, sep) + Split(b, sep)
  {
    var p, q := Split(a, sep), Split(b, sep);
    JoinSplit(a, sep);
    JoinSplit(b, sep);
    SplitPartsFree(a, sep);
    SplitPartsFree(b, sep);
    JoinConcat(p, q, [sep]);
    SplitJoin(p + q, sep);
  }

  /** A text without the separator is one piece. */
  lemma SplitWhole(s: string, sep: char)
    requires sep !in s
    ensures Split(s, sep) == [s]
  {
    assert forall k :: 0 <= k < |s| ==> s[k] != sep;
  }

  /** `s.split(sep, 1)[1]`: the text after the first separator; None is the
      IndexError raised when the separator is absent. */
  function AfterFirst(s: string, sep: char): (r: Option<string>)
    ensures r.None? <==> sep !in s
    ensures r.Some? ==> exists i :: 0 <= i < |s| && s[i] == sep && sep !in s[..i] && r.value == s[i + 1..]
  {
    var i := FirstIn(s, {sep});
    if i == |s| then None else Some(s[i + 1..])
  }

  // ---------------------------------------------------------------- replace

  /** `s.replace(pat, rep)`: leftmost, non-overlapping occurrences. */
  function ReplaceAll(s: string, pat: string, rep: string): string
    requires pat != []
    decreases |s|
  {
    if |s| < |pat| then s
    else if s[..|pat|] == pat then rep + ReplaceAll(s[|pat|..], pat, rep)
    else [s[0]] + ReplaceAll(s[1..], pat, rep)
  }

  /** Replacing one character by another keeps the length and changes only that character. */
  lemma {:induction false} ReplaceCharAt(s: string, a: char, b: char)
    ensures |ReplaceAll(s, [a], [b])| == |s|
    ensures forall i :: 0 <= i < |s| ==>
      ReplaceAll(s, [a], [b])[i] == (if s[i] == a then b else s[i])
    decreases |s|
  {
    if |s| > 0 {
      ReplaceCharAt(s[1..], a, b);
      var r := ReplaceAll(s, [a], [b]);
      if s[..1] == [a] {
        assert r == [b] + ReplaceAll(s[1..], [a], [b]);
      } else {
        assert r == [s[0]] + ReplaceAll(s[1..], [a], [b]);
      }
    }
  }

  /** Replacing a character that does not occur changes nothing. */
  lemma ReplaceAbsent(s: string, a: char, b: char)
    requires a !in s
    ensures ReplaceAll(s, [a], [b]) == s
  {
    ReplaceCharAt(s, a, b);
  }

  // ---------------------------------------------------------------- ordering

  /** Python's `a < b` on strings: lexicographic by code point, a proper prefix first. */
  predicate LexLess(a: string, b: string)
    decreases |a|
  {
    if a == [] then b != []
    else if b == [] then false
    else if a[0] != b[0] then a[0] < b[0]
    else LexLess(a[1..], b[1..])
  }

  lemma LexLessIrreflexive(a: string)
    ensures !LexLess(a, a)
  {
  }

  lemma {:induction false} LexLessTransitive(a: string, b: string, c: string)
    requires LexLess(a, b) && LexLess(b, c)
    ensures LexLess(a, c)
    decreases |a|
  {
    if a != [] && b != [] && c != [] && a[0] == b[0] && b[0] == c[0] {
      LexLessTransitive(a[1..], b[1..], c[1..]);
    }
  }

  lemma {:induction false} LexLessTotal(a: string, b: string)
    ensures a == b || LexLess(a, b) || LexLess(b, a)
    decreases |a|
  {
    if a != [] && b != [] && a[0] == b[0] {
      LexLessTotal(a[1..], b[1..]);
      if a[1..] == b[1..] {
        assert a == [a[0]] + a[1..] && b == [b[0]] + b[1..];
      }
    }
  }

  lemma {:induction false} LexLessAsymmetric(a: string, b: string)
    requires LexLess(a, b)
    ensures !LexLess(b, a)
    decreases |a|
  {
    if a != [] && b != [] && a[0] == b[0] {
      LexLessAsymmetric(a[1..], b[1..]);
    }
  }

  // ---------------------------------------------------------------- decimal numbers

  predicate IsDigit(c: char) {
    '0' <= c <= '9'
  }

  predicate AllDigits(s: string) {
    forall k :: 0 <= k < |s| ==> IsDigit(s[k])
  }

  function DigitValue(c: char): nat
    requires IsDigit(c)
  {
    c as int - '0' as int
  }

  function DigitChar(d: nat): (c: char)
    requires d < 10
    ensures IsDigit(c) && DigitValue(c) == d
  {
    ('0' as int + d) as char
  }

  /** The value of a string of decimal digits (`int(s)` for such a string). */
  function DigitsValue(s: string): nat
    requires AllDigits(s)
  {
    if s == [] then 0 else DigitsValue(s[..|s| - 1]) * 10 + DigitValue(s[|s| - 1])
  }

  /** `str(n)` for a natural number: no leading zero except for 0 itself. */
  function Decimal(n: nat): (s: string)
    ensures AllDigits(s) && s != []
  {
    if n < 10 then [DigitChar(n)] else Decimal(n / 10) + [DigitChar(n % 10)]
  }

  lemma {:induction false} DecimalValue(n: nat)
    ensures DigitsValue(Decimal(n)) == n
  {
    if n >= 10 {
      DecimalValue(n / 10);
      var s := Decimal(n);
      assert s[..|s| - 1] == Decimal(n / 10);
    }
  }

  lemma {:induction false} DecimalShort(n: nat)
    ensures n < 10 <==> |Decimal(n)| == 1
    ensures n < 100 ==> |Decimal(n)| <= 2
    ensures n < 1000 ==> |Decimal(n)| <= 3
  {
    if n >= 10 {
      DecimalShort(n / 10);
    }
  }

  /** `"%0*d" % (width, n)`: at least `width` digits, zero-padded on the left. */
  function ZeroPad(n: nat, width: nat): (s: string)
    ensures AllDigits(s)
    ensures |s| == if |Decimal(n)| >= width then |Decimal(n)| else width
  {
    var d := Decimal(n);
    if |d| >= width then d else seq(width - |d|, _ => '0') + d
  }
}
