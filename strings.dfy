/**
 * The text operations the storefront uses, with the semantics of the Python
 * built-ins it calls: `in` on strings, `str.replace`, `str.strip`,
 * `str.split` and `str.join` on one separator character, `int()` on decimal
 * text, and lowercasing (ASCII letters only, as SQLite's `lower()` and `LIKE`).
 */
module Strings {
  import opened Wrappers

  // ---------------------------------------------------------------- case

  /** SQL's `lower()`: ASCII letters only. */
  function LowerChar(c: char): char {
    if 'A' <= c <= 'Z' then (c as int - 'A' as int + 'a' as int) as char else c
  }

  function Lower(s: string): string {
    seq(|s|, i requires 0 <= i < |s| => LowerChar(s[i]))
  }

  /**
   * Python's `str.lower()` on one character, for ASCII, Latin-1 and the
   * Latin letters of Windows-1252 (Š, Œ, Ž, Ÿ); other characters are kept.
   */
  function PyLowerChar(c: char): (l: char)
    ensures l != '\U{152}' && l != '\U{160}' && l != '\U{17D}' && l != '\U{178}'
    ensures 'A' <= c <= 'Z' ==> l == LowerChar(c)
    ensures c < '\U{80}' ==> l == LowerChar(c)
  {
    if 'A' <= c <= 'Z' || ('\U{C0}' <= c <= '\U{DE}' && c != '\U{D7}') then (c as int + 32) as char
    else if c == '\U{152}' || c == '\U{160}' || c == '\U{17D}' then (c as int + 1) as char
    else if c == '\U{178}' then '\U{FF}'
    else c
  }

  function PyLower(s: string): string {
    seq(|s|, i requires 0 <= i < |s| => PyLowerChar(s[i]))
  }

  // ----------------------------------------------------------- substrings

  predicate StartsWith(s: string, prefix: string) {
    |prefix| <= |s| && s[..|prefix|] == prefix
  }

  lemma ConcatAssoc(a: string, b: string, c: string)
    ensures a + b + c == a + (b + c)
  {}

  /** `pat` occurs in `s` starting at index `i`. */
  predicate OccursAt(s: string, pat: string, i: int) {
    0 <= i && i + |pat| <= |s| && s[i..i + |pat|] == pat
  }

  /** Python's `pat in s`. */
  predicate Contains(s: string, pat: string) {
    exists i :: 0 <= i <= |s| - |pat| && OccursAt(s, pat, i)
  }

  lemma PrefixOccurs(pat: string, t: string)
    ensures Contains(pat + t, pat)
  {
    assert (pat + t)[0..|pat|] == pat;
    assert OccursAt(pat + t, pat, 0);
  }

  /** A pattern whose first character never occurs in `s` does not occur in `s`. */
  lemma NotContainsWithoutFirstChar(s: string, pat: string)
    requires pat != [] && pat[0] !in s
    ensures !Contains(s, pat)
  {
    forall i | 0 <= i && i + |pat| <= |s|
      ensures !OccursAt(s, pat, i)
    {
      assert s[i..i + |pat|][0] == s[i];
    }
  }

  // -------------------------------------------------------------- replace

  /** Python's `s.replace(pat, rep)`: every non-overlapping occurrence, scanning left to right. */
  function Replace(s: string, pat: string, rep: string): string
    requires pat != []
    decreases |s|
  {
    if |s| < |pat| then s
    else if s[..|pat|] == pat then rep + Replace(s[|pat|..], pat, rep)
    else [s[0]] + Replace(s[1..], pat, rep)
  }

  /** Replacing a pattern that does not occur changes nothing. */
  lemma {:induction false} ReplaceAbsent(s: string, pat: string, rep: string)
    requires pat != [] && !Contains(s, pat)
    ensures Replace(s, pat, rep) == s
    decreases |s|
  {
    if |pat| <= |s| {
      assert !OccursAt(s, pat, 0);
      assert s[0..|pat|] == s[..|pat|];
      forall i | 0 <= i && i + |pat| <= |s[1..]|
        ensures !OccursAt(s[1..], pat, i)
      {
        assert s[1..][i..i + |pat|] == s[i + 1..i + 1 + |pat|];
        assert !OccursAt(s, pat, i + 1);
      }
      ReplaceAbsent(s[1..], pat, rep);
      assert s == [s[0]] + s[1..];
    }
  }

  /** No occurrence of `pat` in `a + b` starts inside `a` and ends inside `b`. */
  predicate NoStraddle(a: string, b: string, pat: string) {
    forall i :: 0 <= i < |a| < i + |pat| ==> !OccursAt(a + b, pat, i)
  }

  /** A slice of a suffix is a slice of the whole. */
  lemma SliceOfSuffix(s: string, k: nat, i: nat, j: nat)
    requires k <= |s| && i <= j <= |s| - k
    ensures s[k..][i..j] == s[i + k..j + k]
  {
  }

  /** Dropping a prefix of `a` keeps the no-straddle condition. */
  lemma NoStraddleDrop(a: string, b: string, pat: string, k: nat)
    requires NoStraddle(a, b, pat) && k <= |a|
    ensures NoStraddle(a[k..], b, pat)
  {
    assert (a + b)[k..] == a[k..] + b;
    forall i | 0 <= i < |a[k..]| < i + |pat|
      ensures !OccursAt(a[k..] + b, pat, i)
    {
      if i + |pat| <= |a[k..] + b| {
        SliceOfSuffix(a + b, k, i, i + |pat|);
        assert !OccursAt(a + b, pat, i + k);
      }
    }
  }

  /** A match at the start of `a + b` lies inside `a` when nothing straddles. */
  lemma MatchAtStartInLeft(a: string, b: string, pat: string)
    requires NoStraddle(a, b, pat) && |a| > 0
    requires |pat| <= |a + b| && (a + b)[..|pat|] == pat
    ensures |pat| <= |a| && a[..|pat|] == pat && (a + b)[|pat|..] == a[|pat|..] + b
  {
    assert (a + b)[0..|pat|] == pat;
    assert OccursAt(a + b, pat, 0);
    assert a[..|pat|] == (a + b)[..|pat|];
  }

  /** No match at the start of `a + b` means none at the start of `a`. */
  lemma NoMatchAtStartOfLeft(a: string, b: string, pat: string)
    requires |pat| <= |a + b| && (a + b)[..|pat|] != pat
    ensures |pat| <= |a| ==> a[..|pat|] != pat
  {
    if |pat| <= |a| {
      assert a[..|pat|] == (a + b)[..|pat|];
    }
  }

  /** Replacement distributes over a concatenation that no occurrence straddles. */
  lemma {:induction false} ReplaceConcat(a: string, b: string, pat: string, rep: string)
    requires pat != [] && NoStraddle(a, b, pat)
    ensures Replace(a + b, pat, rep) == Replace(a, pat, rep) + Replace(b, pat, rep)
    decreases |a|, 1
  {
    if |a| == 0 {
      assert a + b == b;
    } else if |a + b| < |pat| {
    } else if (a + b)[..|pat|] == pat {
      ReplaceConcatAtMatch(a, b, pat, rep);
    } else {
      ReplaceConcatPastChar(a, b, pat, rep);
    }
  }

  /** The case of `ReplaceConcat` where `a + b` starts with the pattern. */
  lemma {:induction false} ReplaceConcatAtMatch(a: string, b: string, pat: string, rep: string)
    requires pat != [] && NoStraddle(a, b, pat) && |a| > 0
    requires |pat| <= |a + b| && (a + b)[..|pat|] == pat
    ensures Replace(a + b, pat, rep) == Replace(a, pat, rep) + Replace(b, pat, rep)
    decreases |a|, 0
  {
    MatchAtStartInLeft(a, b, pat);
    NoStraddleDrop(a, b, pat, |pat|);
    ReplaceConcat(a[|pat|..], b, pat, rep);
  }

  /** The case of `ReplaceConcat` where the first character is kept. */
  lemma {:induction false} ReplaceConcatPastChar(a: string, b: string, pat: string, rep: string)
    requires pat != [] && NoStraddle(a, b, pat) && |a| > 0
    requires |pat| <= |a + b| && (a + b)[..|pat|] != pat
    ensures Replace(a + b, pat, rep) == Replace(a, pat, rep) + Replace(b, pat, rep)
    decreases |a|, 0
  {
    assert (a + b)[1..] == a[1..] + b;
    NoMatchAtStartOfLeft(a, b, pat);
    NoStraddleDrop(a, b, pat, 1);
    ReplaceConcat(a[1..], b, pat, rep);
    var s := a + b;
    assert s[0] == a[0];
    assert Replace(s, pat, rep) == [a[0]] + Replace(a[1..] + b, pat, rep);
    if |a| < |pat| {
      assert Replace(a[1..], pat, rep) == a[1..];
      assert a == [a[0]] + a[1..];
    } else {
      assert Replace(a, pat, rep) == [a[0]] + Replace(a[1..], pat, rep);
    }
  }

  /** An occurrence at the very start is replaced and scanning resumes after it. */
  lemma ReplaceAtStart(pat: string, t: string, rep: string)
    requires pat != []
    ensures Replace(pat + t, pat, rep) == rep + Replace(t, pat, rep)
  {
    assert (pat + t)[..|pat|] == pat;
    assert (pat + t)[|pat|..] == t;
  }

  /** A first character that cannot start the pattern is kept and the scan moves on. */
  lemma ReplaceSkipsChar(c: char, t: string, pat: string, rep: string)
    requires pat != [] && pat[0] != c
    ensures Replace([c] + t, pat, rep) == [c] + Replace(t, pat, rep)
  {
    var s := [c] + t;
    if |pat| <= |s| {
      assert s[..|pat|][0] == c;
    }
    assert s[1..] == t;
  }

  // ---------------------------------------------------------------- strip

  /** The characters for which Python's `str.isspace()` holds. */
  predicate IsSpace(c: char) {
    || '\U{9}' <= c <= '\U{D}'
    || '\U{1C}' <= c <= '\U{20}'
    || c == '\U{85}' || c == '\U{A0}' || c == '\U{1680}'
    || '\U{2000}' <= c <= '\U{200A}'
    || c == '\U{2028}' || c == '\U{2029}' || c == '\U{202F}' || c == '\U{205F}' || c == '\U{3000}'
  }

  predicate AllSpace(s: string) {
    forall i :: 0 <= i < |s| ==> IsSpace(s[i])
  }

  function LStrip(s: string): string
    decreases |s|
  {
    if |s| > 0 && IsSpace(s[0]) then LStrip(s[1..]) else s
  }

  function RStrip(s: string): string
    decreases |s|
  {
    if |s| > 0 && IsSpace(s[|s| - 1]) then RStrip(s[..|s| - 1]) else s
  }

  /** Python's `s.strip()`. */
  function Strip(s: string): string {
    RStrip(LStrip(s))
  }

  lemma {:induction false} LStripSpaces(sp: string, x: string)
    requires AllSpace(sp)
    ensures LStrip(sp + x) == LStrip(x)
    decreases |sp|
  {
    if |sp| > 0 {
      assert (sp + x)[1..] == sp[1..] + x;
      LStripSpaces(sp[1..], x);
    } else {
      assert sp + x == x;
    }
  }

  lemma {:induction false} LStripAppend(x: string, y: string)
    ensures LStrip(x + y) == if LStrip(x) == [] then LStrip(y) else LStrip(x) + y
    decreases |x|
  {
    if |x| == 0 {
      assert x + y == y;
    } else {
      assert (x + y)[0] == x[0];
      if IsSpace(x[0]) {
        assert (x + y)[1..] == x[1..] + y;
        LStripAppend(x[1..], y);
      }
    }
  }

  lemma {:induction false} RStripSpaces(x: string, sp: string)
    requires AllSpace(sp)
    ensures RStrip(x + sp) == RStrip(x)
    decreases |sp|
  {
    if |sp| > 0 {
      assert (x + sp)[..|x + sp| - 1] == x + sp[..|sp| - 1];
      RStripSpaces(x, sp[..|sp| - 1]);
    } else {
      assert x + sp == x;
    }
  }

  /** Leading whitespace does not survive `strip()`. */
  lemma StripLeadingSpaces(sp: string, x: string)
    requires AllSpace(sp)
    ensures Strip(sp + x) == Strip(x)
  {
    LStripSpaces(sp, x);
  }

  /** Trailing whitespace does not survive `strip()`. */
  lemma StripTrailingSpaces(x: string, sp: string)
    requires AllSpace(sp)
    ensures Strip(x + sp) == Strip(x)
  {
    LStripAppend(x, sp);
    if LStrip(x) == [] {
      LStripSpaces(sp, []);
      assert sp + [] == sp;
    } else {
      RStripSpaces(LStrip(x), sp);
    }
  }

  /** Text that neither starts nor ends with whitespace is its own `strip()`. */
  predicate Trimmed(s: string) {
    s == [] || (!IsSpace(s[0]) && !IsSpace(s[|s| - 1]))
  }

  lemma StripTrimmed(s: string)
    requires Trimmed(s)
    ensures Strip(s) == s
  {}

  // ---------------------------------------------------------- split, join

  /** Python's `s.split(sep)` for a one-character separator: empty fields are kept. */
  function Split(s: string, sep: char): (parts: seq<string>)
    ensures |parts| >= 1
    decreases |s|
  {
    if |s| == 0 then [[]]
    else
      var rest := Split(s[1..], sep);
      if s[0] == sep then [[]] + rest else [[s[0]] + rest[0]] + rest[1..]
  }

  /** Python's `sep.join(parts)`. */
  function Join(parts: seq<string>, sep: char): string
    decreases |parts|
  {
    if |parts| == 0 then []
    else if |parts| == 1 then parts[0]
    else parts[0] + [sep] + Join(parts[1..], sep)
  }

  lemma {:induction false} SplitWithoutSep(s: string, sep: char)
    requires sep !in s
    ensures Split(s, sep) == [s]
    decreases |s|
  {
    if |s| > 0 {
      SplitWithoutSep(s[1..], sep);
      assert s == [s[0]] + s[1..];
    }
  }

  lemma {:induction false} SplitAtSep(x: string, y: string, sep: char)
    ensures Split(x + [sep] + y, sep) == Split(x, sep) + Split(y, sep)
    decreases |x|
  {
    if |x| == 0 {
      assert x + [sep] + y == [sep] + y;
      assert ([sep] + y)[1..] == y;
    } else {
      SplitAtSep(x[1..], y, sep);
      SplitAtSepStep(x, y, sep);
    }
  }

  /** The inductive step of `SplitAtSep`: one more character in front of the separator. */
  lemma SplitAtSepStep(x: string, y: string, sep: char)
    requires |x| > 0 && Split(x[1..] + [sep] + y, sep) == Split(x[1..], sep) + Split(y, sep)
    ensures Split(x + [sep] + y, sep) == Split(x, sep) + Split(y, sep)
  {
    var c, x' := x[0], x[1..];
    assert x + [sep] + y == [c] + (x' + [sep] + y);
    assert x == [c] + x';
    ConsSplitAtSep(c, x', y, sep);
  }

  lemma ConsSplitAtSep(c: char, x: string, y: string, sep: char)
    requires Split(x + [sep] + y, sep) == Split(x, sep) + Split(y, sep)
    ensures Split([c] + (x + [sep] + y), sep) == Split([c] + x, sep) + Split(y, sep)
  {
    var a, b := Split(x, sep), Split(y, sep);
    SplitCons(c, x + [sep] + y, sep);
    SplitCons(c, x, sep);
    PartsConcat(a, b);
  }

  /** `split` on a string that starts with the character `c`. */
  lemma SplitCons(c: char, t: string, sep: char)
    ensures Split([c] + t, sep) ==
      (if c == sep then [[]] + Split(t, sep) else [[c] + Split(t, sep)[0]] + Split(t, sep)[1..])
  {
    assert ([c] + t)[1..] == t;
  }

  lemma PartsConcat(a: seq<string>, b: seq<string>)
    requires |a| >= 1
    ensures (a + b)[0] == a[0] && (a + b)[1..] == a[1..] + b
    ensures forall h :: [h] + (a + b) == [h] + a + b && [h] + (a[1..] + b) == [h] + a[1..] + b
  {}

  /** Splitting a join gives the fields back when none of them holds the separator. */
  lemma {:induction false} SplitJoin(parts: seq<string>, sep: char)
    requires |parts| >= 1
    requires forall k :: 0 <= k < |parts| ==> sep !in parts[k]
    ensures Split(Join(parts, sep), sep) == parts
    decreases |parts|
  {
    if |parts| == 1 {
      SplitWithoutSep(parts[0], sep);
    } else {
      SplitAtSep(parts[0], Join(parts[1..], sep), sep);
      SplitWithoutSep(parts[0], sep);
      SplitJoin(parts[1..], sep);
      assert parts == [parts[0]] + parts[1..];
    }
  }

  /** Joining the fields of a split gives the text back. */
  lemma {:induction false} JoinSplit(s: string, sep: char)
    ensures Join(Split(s, sep), sep) == s
    decreases |s|
  {
    if |s| > 0 {
      var rest := Split(s[1..], sep);
      JoinSplit(s[1..], sep);
      if s[0] == sep {
        assert Split(s, sep) == [[]] + rest;
        assert ([[]] + rest)[1..] == rest;
        assert s == [] + [sep] + s[1..];
      } else {
        var parts := [[s[0]] + rest[0]] + rest[1..];
        assert Split(s, sep) == parts;
        if |rest| == 1 {
          assert s == [s[0]] + rest[0];
        } else {
          assert parts[1..] == rest[1..];
          assert Join(rest, sep) == rest[0] + [sep] + Join(rest[1..], sep);
          assert s == [s[0]] + s[1..];
        }
      }
    }
  }

  // ------------------------------------------------------------- decimals

  predicate IsDigit(c: char) {
    '0' <= c <= '9'
  }

  predicate AllDigits(s: string) {
    forall i :: 0 <= i < |s| ==> IsDigit(s[i])
  }

  function DigitChar(d: nat): char
    requires d < 10
  {
    ('0' as int + d) as char
  }

  /** Python's `str(n)` for a non-negative integer. */
  function DecimalOf(n: nat): (s: string)
    ensures |s| > 0 && AllDigits(s)
    decreases n
  {
    if n < 10 then [DigitChar(n)] else DecimalOf(n / 10) + [DigitChar(n % 10)]
  }

  function DigitsValue(s: string): nat
    requires AllDigits(s)
    decreases |s|
  {
    if |s| == 0 then 0 else 10 * DigitsValue(s[..|s| - 1]) + (s[|s| - 1] as int - '0' as int)
  }

  /**
   * Python's `int(s)` on an optional sign followed by decimal digits; any other
   * text is `None` (where Python raises `ValueError`).
   */
  function ParseInt(s: string): Option<int> {
    if |s| > 0 && (s[0] == '-' || s[0] == '+') then
      if |s| > 1 && AllDigits(s[1..]) then
        var v: int := DigitsValue(s[1..]);
        Some(if s[0] == '-' then -v else v)
      else None
    else if |s| > 0 && AllDigits(s) then Some(DigitsValue(s))
    else None
  }

  lemma {:induction false} DigitsValueOfDecimal(n: nat)
    ensures DigitsValue(DecimalOf(n)) == n
    decreases n
  {
    if n >= 10 {
      var s := DecimalOf(n);
      assert s[..|s| - 1] == DecimalOf(n / 10);
      DigitsValueOfDecimal(n / 10);
    }
  }

  /** `int(str(n)) == n`. */
  lemma ParseDecimal(n: nat)
    ensures ParseInt(DecimalOf(n)) == Some(n)
  {
    DigitsValueOfDecimal(n);
  }

  /** Python's `str(n)` for any integer. */
  function IntString(n: int): (s: string)
    ensures |s| > 0
  {
    if n < 0 then "-" + DecimalOf(-n) else DecimalOf(n)
  }

  /** `int(str(n)) == n` for every integer, so `str` on integers is injective. */
  lemma ParseIntString(n: int)
    ensures ParseInt(IntString(n)) == Some(n)
  {
    if n < 0 {
      DigitsValueOfDecimal(-n);
      assert IntString(n)[1..] == DecimalOf(-n);
    } else {
      ParseDecimal(n);
    }
  }

  lemma IntStringInjective(m: int, n: int)
    requires IntString(m) == IntString(n)
    ensures m == n
  {
    ParseIntString(m);
    ParseIntString(n);
  }
}
