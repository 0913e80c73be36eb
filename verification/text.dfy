/**
 * The Python string operations the planner's parsers rely on: whitespace
 * tests, `lower`/`upper` (ASCII letters only), `strip`, `split` on one
 * character, the decimal text of an integer and `int(text)`.
 */
module Text {
  import opened Wrappers

  /** Python's `str.isspace` (also what `\s` matches in a `str` pattern). */
  predicate IsSpace(c: char) {
    || ('\t' <= c <= '\r')
    || ('\U{1C}' <= c <= '\U{1F}')
    || c == ' ' || c == '\U{85}' || c == '\U{A0}' || c == '\U{1680}'
    || ('\U{2000}' <= c <= '\U{200A}')
    || c == '\U{2028}' || c == '\U{2029}' || c == '\U{202F}' || c == '\U{205F}' || c == '\U{3000}'
  }

  predicate IsAsciiLower(c: char) { 'a' <= c <= 'z' }
  predicate IsAsciiUpper(c: char) { 'A' <= c <= 'Z' }
  predicate IsAsciiLetter(c: char) { IsAsciiLower(c) || IsAsciiUpper(c) }
  predicate IsDigit(c: char) { '0' <= c <= '9' }

  function LowerChar(c: char): char {
    if IsAsciiUpper(c) then (c as int - 'A' as int + 'a' as int) as char else c
  }

  function UpperChar(c: char): char {
    if IsAsciiLower(c) then (c as int - 'a' as int + 'A' as int) as char else c
  }

  /** `str.lower()`, for ASCII letters. */
  function Lower(s: string): (r: string)
    ensures |r| == |s|
    ensures forall i :: 0 <= i < |s| ==> r[i] == LowerChar(s[i])
  {
    seq(|s|, i requires 0 <= i < |s| => LowerChar(s[i]))
  }

  /** `str.upper()`, for ASCII letters. */
  function Upper(s: string): (r: string)
    ensures |r| == |s|
    ensures forall i :: 0 <= i < |s| ==> r[i] == UpperChar(s[i])
  {
    seq(|s|, i requires 0 <= i < |s| => UpperChar(s[i]))
  }

  predicate AllSpace(s: string) {
    forall i :: 0 <= i < |s| ==> IsSpace(s[i])
  }

  /** `s` does not begin or end with whitespace. */
  predicate Stripped(s: string) {
    s != [] ==> !IsSpace(s[0]) && !IsSpace(s[|s| - 1])
  }

  /** The number of whitespace characters `lstrip` removes. */
  function LeadingSpace(s: string): (n: nat)
    ensures n <= |s|
  {
    if s != [] && IsSpace(s[0]) then 1 + LeadingSpace(s[1..]) else 0
  }

  /** The number of whitespace characters `rstrip` removes. */
  function TrailingSpace(s: string): (n: nat)
    ensures n <= |s|
  {
    if s != [] && IsSpace(s[|s| - 1]) then 1 + TrailingSpace(s[..|s| - 1]) else 0
  }

  /** `LeadingSpace` counts the whole leading run of whitespace and no more. */
  lemma {:induction false} LeadingSpaceIsRun(s: string)
    ensures AllSpace(s[..LeadingSpace(s)])
    ensures LeadingSpace(s) < |s| ==> !IsSpace(s[LeadingSpace(s)])
  {
    if s != [] && IsSpace(s[0]) {
      LeadingSpaceIsRun(s[1..]);
      var n := LeadingSpace(s[1..]);
      assert s[..n + 1] == [s[0]] + s[1..][..n];
    }
  }

  /** `TrailingSpace` counts the whole trailing run of whitespace and no more. */
  lemma {:induction false} TrailingSpaceIsRun(s: string)
    ensures AllSpace(s[|s| - TrailingSpace(s)..])
    ensures TrailingSpace(s) < |s| ==> !IsSpace(s[|s| - 1 - TrailingSpace(s)])
  {
    if s != [] && IsSpace(s[|s| - 1]) {
      var init := s[..|s| - 1];
      TrailingSpaceIsRun(init);
      var n := TrailingSpace(init);
      assert s[|s| - (n + 1)..] == init[|init| - n..] + [s[|s| - 1]];
    }
  }

  /** `str.strip()`: drop the leading whitespace, then the trailing whitespace of what is left. */
  function Strip(s: string): (r: string)
    ensures Stripped(r) && |r| <= |s|
  {
    var l := s[LeadingSpace(s)..];
    LeadingSpaceIsRun(s);
    TrailingSpaceIsRun(l);
    l[..|l| - TrailingSpace(l)]
  }

  /** What `strip` removes is whitespace on both sides of what it keeps. */
  lemma StripSplit(s: string) returns (before: string, after: string)
    ensures AllSpace(before) && AllSpace(after)
    ensures s == before + Strip(s) + after
  {
    var n := LeadingSpace(s);
    var l := s[n..];
    var m := |l| - TrailingSpace(l);
    before, after := s[..n], l[m..];
    assert AllSpace(before) by { LeadingSpaceIsRun(s); }
    assert AllSpace(after) by { TrailingSpaceIsRun(l); }
    assert Strip(s) == l[..m];
    assert s == before + (l[..m] + after) by {
      SliceSplit(s, n);
      SliceSplit(l, m);
    }
    Associate(before, l[..m], after);
  }

  lemma Associate(a: string, b: string, c: string)
    ensures a + (b + c) == a + b + c
  {
  }

  lemma SliceSplit(s: string, i: nat)
    requires i <= |s|
    ensures s == s[..i] + s[i..]
  {
  }

  /** Stripping a string that has nothing to strip gives it back. */
  lemma StripOfStripped(s: string)
    requires Stripped(s)
    ensures Strip(s) == s
  {
    assert LeadingSpace(s) == 0;
    assert s[0..] == s;
    assert TrailingSpace(s) == 0;
  }

  /** `strip` is idempotent. */
  lemma StripIdempotent(s: string)
    ensures Strip(Strip(s)) == Strip(s)
  {
    StripOfStripped(Strip(s));
  }

  lemma AllSpaceConcat(u: string, v: string)
    requires AllSpace(u) && AllSpace(v)
    ensures AllSpace(u + v)
  {
  }

  lemma {:induction false} LeadingSpaceAfterSpace(a: string, y: string)
    requires AllSpace(a)
    ensures LeadingSpace(a + y) == |a| + LeadingSpace(y)
  {
    if a != [] {
      LeadingSpaceAfterSpace(a[1..], y);
      assert (a + y)[1..] == a[1..] + y;
    } else {
      assert a + y == y;
    }
  }

  lemma {:induction false} TrailingSpaceBeforeSpace(y: string, b: string)
    requires AllSpace(b)
    ensures TrailingSpace(y + b) == TrailingSpace(y) + |b|
  {
    if b != [] {
      TrailingSpaceBeforeSpace(y, b[..|b| - 1]);
      assert (y + b)[..|y + b| - 1] == y + b[..|b| - 1];
    } else {
      assert y + b == y;
    }
  }

  /** A text of whitespace alone strips to nothing. */
  lemma StripOfAllSpace(s: string)
    requires AllSpace(s)
    ensures Strip(s) == []
  {
    assert s + [] == s;
    LeadingSpaceAfterSpace(s, []);
  }

  /** Whitespace around a non-empty stripped text is exactly what `strip` removes. */
  lemma StripPaddedNonEmpty(a: string, x: string, b: string)
    requires AllSpace(a) && AllSpace(b) && Stripped(x) && x != []
    ensures Strip(a + x + b) == x
  {
    var s := a + x + b;
    assert s == a + (x + b);
    LeadingSpaceAfterSpace(a, x + b);
    assert LeadingSpace(x + b) == 0 by { assert (x + b)[0] == x[0]; }
    assert s[LeadingSpace(s)..] == x + b;
    TrailingSpaceBeforeSpace(x, b);
    assert TrailingSpace(x) == 0;
    assert (x + b)[..|x|] == x;
  }

  /** Whitespace around a stripped text is exactly what `strip` removes. */
  lemma StripPadded(a: string, x: string, b: string)
    requires AllSpace(a) && AllSpace(b) && Stripped(x)
    ensures Strip(a + x + b) == x
  {
    if x == [] {
      assert a + x + b == a + b;
      AllSpaceConcat(a, b);
      StripOfAllSpace(a + b);
    } else {
      StripPaddedNonEmpty(a, x, b);
    }
  }

  lemma Regroup(a: string, u: string, v: string, w: string, b: string)
    ensures a + (u + (v + w)) + b == (a + u) + v + (w + b)
  {
  }

  /** Whitespace added around a text does not change what `strip` keeps. */
  lemma StripIgnoresPadding(a: string, x: string, b: string)
    requires AllSpace(a) && AllSpace(b)
    ensures Strip(a + x + b) == Strip(x)
  {
    var pre, post := StripSplit(x);
    var r := Strip(x);
    assert x == pre + (r + post);
    Regroup(a, pre, r, post, b);
    AllSpaceConcat(a, pre);
    AllSpaceConcat(post, b);
    StripPadded(a + pre, r, post + b);
  }


  /** Every character `strip` keeps comes from the text. */
  lemma StripKeepsCharacters(s: string)
    ensures forall c :: c in Strip(s) ==> c in s
  {
    var before, after := StripSplit(s);
  }

  predicate StartsWith(s: string, prefix: string) {
    |prefix| <= |s| && s[..|prefix|] == prefix
  }

  predicate EndsWith(s: string, suffix: string) {
    |suffix| <= |s| && s[|s| - |suffix|..] == suffix
  }

  function CountChar(s: string, c: char): nat {
    if s == [] then 0 else (if s[0] == c then 1 else 0) + CountChar(s[1..], c)
  }

  /** `s.split(sep)` for a one-character separator (pieces may be empty). */
  function Split(s: string, sep: char): (parts: seq<string>)
    ensures |parts| == CountChar(s, sep) + 1
    ensures forall k :: 0 <= k < |parts| ==> sep !in parts[k]
  {
    if s == [] then [[]]
    else
      var rest := Split(s[1..], sep);
      if s[0] == sep then [[]] + rest else [[s[0]] + rest[0]] + rest[1..]
  }

  /** A text without the separator is one piece. */
  lemma {:induction false} SplitWithoutSep(s: string, sep: char)
    requires sep !in s
    ensures Split(s, sep) == [s]
  {
    if s != [] {
      SplitWithoutSep(s[1..], sep);
      assert [s[0]] + s[1..] == s;
    }
  }

  /** A text with exactly one separator splits into the text before it and the text after it. */
  lemma {:induction false} SplitAtSep(x: string, y: string, sep: char)
    requires sep !in x && sep !in y
    ensures Split(x + [sep] + y, sep) == [x, y]
  {
    if x == [] {
      SplitWithoutSep(y, sep);
      assert (x + [sep] + y)[1..] == y;
    } else {
      SplitAtSep(x[1..], y, sep);
      assert (x + [sep] + y)[1..] == x[1..] + [sep] + y;
      assert [x[0]] + x[1..] == x;
    }
  }

  /** `sep.join(parts)`, the inverse of `Split`. */
  function Join(parts: seq<string>, sep: char): string
    requires |parts| > 0
  {
    if |parts| == 1 then parts[0] else parts[0] + [sep] + Join(parts[1..], sep)
  }

  /** Joining the pieces of a split gives the original text back. */
  lemma {:induction false} JoinSplit(s: string, sep: char)
    ensures Join(Split(s, sep), sep) == s
  {
    if s != [] {
      JoinSplit(s[1..], sep);
      var rest := Split(s[1..], sep);
      if s[0] == sep {
        assert Split(s, sep)[1..] == rest;
      } else {
        var parts := Split(s, sep);
        if |rest| == 1 {
        } else {
          assert parts[1..] == rest[1..];
          assert Join(rest, sep) == rest[0] + [sep] + Join(rest[1..], sep);
        }
      }
    }
  }

  function DigitChar(d: nat): char
    requires d < 10
  {
    ('0' as int + d) as char
  }

  function DigitValue(c: char): nat
    requires IsDigit(c)
  {
    c as int - '0' as int
  }

  /** The decimal digits of `n`, most significant first, without leading zeros. */
  function NatToDecimal(n: nat): (r: string)
    ensures |r| > 0 && forall i :: 0 <= i < |r| ==> IsDigit(r[i])
    ensures |r| > 1 ==> r[0] != '0'
  {
    if n < 10 then [DigitChar(n)] else NatToDecimal(n / 10) + [DigitChar(n % 10)]
  }

  /** Python's `str(n)` for an integer. */
  function IntToDecimal(n: int): string {
    if n < 0 then "-" + NatToDecimal(-n) else NatToDecimal(n)
  }

  /** The value of a run of decimal digits and underscores (underscores are skipped). */
  function DigitsValue(s: string): nat
    requires forall i :: 0 <= i < |s| ==> IsDigit(s[i]) || s[i] == '_'
  {
    if s == [] then 0
    else if s[|s| - 1] == '_' then DigitsValue(s[..|s| - 1])
    else DigitsValue(s[..|s| - 1]) * 10 + DigitValue(s[|s| - 1])
  }

  /** Digits with single underscores only between two digits, as Python's `int` accepts. */
  predicate WellFormedDigits(s: string) {
    && |s| > 0
    && (forall i :: 0 <= i < |s| ==> IsDigit(s[i]) || s[i] == '_')
    && s[0] != '_' && s[|s| - 1] != '_'
    && (forall i :: 0 <= i < |s| - 1 ==> !(s[i] == '_' && s[i + 1] == '_'))
  }

  /** Python's `int(text)` in base 10: `None` where Python raises `ValueError`. */
  function ParseInt(text: string): (r: Option<int>)
    ensures r.Some? ==> Strip(text) != []
  {
    var t := Strip(text);
    if t == [] then None
    else
      var negative := t[0] == '-';
      var digits := if t[0] == '-' || t[0] == '+' then t[1..] else t;
      if !WellFormedDigits(digits) then None
      else if negative then Some(0 - DigitsValue(digits))
      else Some(DigitsValue(digits))
  }

  lemma {:induction false} DigitsValueOfDecimal(n: nat)
    ensures DigitsValue(NatToDecimal(n)) == n
  {
    if n >= 10 {
      DigitsValueOfDecimal(n / 10);
      var r := NatToDecimal(n);
      assert r[..|r| - 1] == NatToDecimal(n / 10);
    }
  }

  /** A stripped text that is a well-formed run of digits reads as their value. */
  lemma ParseIntOfDigits(t: string)
    requires WellFormedDigits(t) && IsDigit(t[0])
    ensures ParseInt(t) == Some(DigitsValue(t))
  {
    StripOfStripped(t);
  }

  /** A minus sign followed by well-formed digits reads as the negated value. */
  lemma ParseIntOfNegatedDigits(t: string)
    requires WellFormedDigits(t)
    ensures ParseInt(['-'] + t) == Some(0 - DigitsValue(t))
  {
    var s := ['-'] + t;
    StripOfStripped(s);
    assert s[1..] == t;
  }

  /** `int(str(n)) == n`. */
  lemma ParseIntOfDecimal(n: int)
    ensures ParseInt(IntToDecimal(n)) == Some(n)
  {
    var m: nat := if n < 0 then -n else n;
    var digits := NatToDecimal(m);
    assert WellFormedDigits(digits);
    DigitsValueOfDecimal(m);
    if n < 0 {
      assert IntToDecimal(n) == ['-'] + digits;
      ParseIntOfNegatedDigits(digits);
    } else {
      ParseIntOfDigits(digits);
    }
  }

  // ---------------------------------------------------------------- lists of texts

  /** The position of the first occurrence of `x` in `s`; `|s|` when there is none. */
  function FirstIndex<T(==)>(s: seq<T>, x: T): (i: nat)
    ensures i <= |s|
    ensures i < |s| <==> x in s
    ensures i < |s| ==> s[i] == x
    ensures forall j :: 0 <= j < i ==> s[j] != x
  {
    if s == [] || s[0] == x then 0 else 1 + FirstIndex(s[1..], x)
  }

  /** An occurrence with no earlier one is the first occurrence. */
  lemma {:induction false} FirstIndexIs<T>(s: seq<T>, x: T, k: nat)
    requires k < |s| && s[k] == x
    requires forall j :: 0 <= j < k ==> s[j] != x
    ensures FirstIndex(s, x) == k
  {
    if k > 0 {
      assert s[0] != x;
      assert forall j :: 0 <= j < k - 1 ==> s[1..][j] == s[j + 1];
      FirstIndexIs(s[1..], x, k - 1);
    }
  }

  /** Appending an element does not move the first occurrence of anything already present. */
  lemma FirstIndexOfInit<T>(s: seq<T>, x: T)
    requires s != []
    ensures x in s[..|s| - 1] ==> FirstIndex(s, x) == FirstIndex(s[..|s| - 1], x)
    ensures x !in s[..|s| - 1] && x == s[|s| - 1] ==> FirstIndex(s, x) == |s| - 1
  {
    var init := s[..|s| - 1];
    var k := if x in init then FirstIndex(init, x) else |s| - 1;
    if x in init || x == s[|s| - 1] {
      assert forall j :: 0 <= j < k ==> s[j] == init[j];
      FirstIndexIs(s, x, k);
    }
  }

  lemma FirstIndexAfterSnoc<T>(s: seq<T>)
    requires s != []
    ensures forall x :: x in s ==>
      FirstIndex(s, x) == if x in s[..|s| - 1] then FirstIndex(s[..|s| - 1], x) else |s| - 1
  {
    forall x | x in s ensures FirstIndex(s, x) == if x in s[..|s| - 1] then FirstIndex(s[..|s| - 1], x) else |s| - 1 {
      FirstIndexOfInit(s, x);
    }
  }

  /** The texts of `s` that are not empty, in order; each keeps its multiplicity. */
  function NonEmpty(s: seq<string>): (r: seq<string>)
    ensures forall x :: x in r <==> x in s && x != []
    ensures forall x :: multiset(r)[x] == if x == [] then 0 else multiset(s)[x]
  {
    if s == [] then []
    else
      var rest := NonEmpty(s[1..]);
      assert s == [s[0]] + s[1..];
      if s[0] != [] then [s[0]] + rest else rest
  }

  /** Filtering keeps order: filtering a concatenation concatenates the filtered parts. */
  lemma {:induction false} NonEmptyAppend(s: seq<string>, t: seq<string>)
    ensures NonEmpty(s + t) == NonEmpty(s) + NonEmpty(t)
  {
    if s == [] {
      assert s + t == t;
    } else {
      assert (s + t)[0] == s[0] && (s + t)[1..] == s[1..] + t;
      NonEmptyAppend(s[1..], t);
    }
  }

  /** Filtering keeps the order in which the surviving texts first appear. */
  lemma {:induction false} NonEmptyKeepsFirstOrder(s: seq<string>)
    ensures forall x, y :: x in NonEmpty(s) && y in NonEmpty(s) ==>
      (FirstIndex(NonEmpty(s), x) < FirstIndex(NonEmpty(s), y) <==> FirstIndex(s, x) < FirstIndex(s, y))
  {
    if s != [] {
      NonEmptyKeepsFirstOrder(s[1..]);
      var r, rest := NonEmpty(s), NonEmpty(s[1..]);
      forall x, y | x in r && y in r
        ensures FirstIndex(r, x) < FirstIndex(r, y) <==> FirstIndex(s, x) < FirstIndex(s, y)
      {
        if s[0] != [] {
          assert r[1..] == rest;
          if x != s[0] {
            assert x in rest;
          }
          if y != s[0] {
            assert y in rest;
          }
        }
      }
    }
  }
}
