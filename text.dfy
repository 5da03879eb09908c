/** The pieces of Python's `str` and `re` behaviour that the core relies on. */
module Text {

  /** Python's `\w` restricted to ASCII: letters, digits and the underscore. */
  predicate IsWordChar(c: char) {
    ('a' <= c <= 'z') || ('A' <= c <= 'Z') || ('0' <= c <= '9') || c == '_'
  }

  /** The characters for which Python's `str.isspace()` holds; `str.strip()` removes these. */
  predicate IsSpace(c: char) {
    ('\t' <= c <= '\r') || ('\U{1C}' <= c <= '\U{1F}') || c == ' ' || c == '\U{85}' || c == '\U{A0}'
    || c == '\U{1680}' || ('\U{2000}' <= c <= '\U{200A}') || c == '\U{2028}' || c == '\U{2029}'
    || c == '\U{202F}' || c == '\U{205F}' || c == '\U{3000}'
  }

  predicate IsDigit(c: char) {
    '0' <= c <= '9'
  }

  /** A non-empty run of word characters: what `\w+` matches. */
  predicate IsWordRun(s: string) {
    |s| > 0 && forall k :: 0 <= k < |s| ==> IsWordChar(s[k])
  }

  /** Neither end of `s` is whitespace. */
  predicate NoOuterSpace(s: string) {
    s == [] || (!IsSpace(s[0]) && !IsSpace(s[|s| - 1]))
  }

  /** `s.lstrip()`: the suffix of `s` left after its leading whitespace. */
  function TrimStart(s: string): (r: string)
    ensures |r| <= |s| && r == s[|s| - |r|..]
    ensures r == [] || !IsSpace(r[0])
    ensures forall k :: 0 <= k < |s| - |r| ==> IsSpace(s[k])
  {
    if s != [] && IsSpace(s[0]) then
      var r := TrimStart(s[1..]);
      assert forall k :: 1 <= k < |s| - |r| ==> s[k] == s[1..][k - 1];
      r
    else s
  }

  /** `s.rstrip()`: the prefix of `s` left before its trailing whitespace. */
  function TrimEnd(s: string): (r: string)
    ensures |r| <= |s| && r == s[..|r|]
    ensures r == [] || !IsSpace(r[|r| - 1])
    ensures forall k :: |r| <= k < |s| ==> IsSpace(s[k])
  {
    if s != [] && IsSpace(s[|s| - 1]) then
      var r := TrimEnd(s[..|s| - 1]);
      assert forall k :: |r| <= k < |s| - 1 ==> s[k] == s[..|s| - 1][k];
      r
    else s
  }

  /** `s.strip()`. */
  function Strip(s: string): (r: string)
    ensures NoOuterSpace(r)
  {
    TrimEnd(TrimStart(s))
  }

  /** `lstrip()` keeps only characters of its argument. */
  lemma TrimStartInside(s: string)
    ensures forall c :: c in TrimStart(s) ==> c in s
  {
    var r := TrimStart(s);
    assert r == s[|s| - |r|..];
  }

  /** `rstrip()` keeps only characters of its argument. */
  lemma TrimEndInside(s: string)
    ensures forall c :: c in TrimEnd(s) ==> c in s
  {
    var r := TrimEnd(s);
    assert r == s[..|r|];
  }

  /** A string that has no whitespace at either end is left alone by `strip()`. */
  lemma StripNoop(s: string)
    requires NoOuterSpace(s)
    ensures Strip(s) == s
  {
    assert TrimStart(s) == s;
  }

  /** `strip()` removes whitespace only: every other character keeps its number of occurrences. */
  lemma StripKeepsNonSpace(s: string, c: char)
    requires !IsSpace(c)
    ensures multiset(Strip(s))[c] == multiset(s)[c]
  {
    TrimStartKeeps(s, c);
    TrimEndKeeps(TrimStart(s), c);
  }

  lemma TrimStartKeeps(s: string, c: char)
    requires !IsSpace(c)
    ensures multiset(TrimStart(s))[c] == multiset(s)[c]
  {
    var t := TrimStart(s);
    var lead := s[..|s| - |t|];
    assert s == lead + t;
    DropSpaces(lead, t, c);
  }

  lemma TrimEndKeeps(s: string, c: char)
    requires !IsSpace(c)
    ensures multiset(TrimEnd(s))[c] == multiset(s)[c]
  {
    var r := TrimEnd(s);
    var trail := s[|r|..];
    assert s == r + trail;
    DropSpaces(trail, r, c);
  }

  /** Whitespace joined to either side of `s` adds no occurrence of a non-space character. */
  lemma DropSpaces(sp: string, s: string, c: char)
    requires forall k :: 0 <= k < |sp| ==> IsSpace(sp[k])
    requires !IsSpace(c)
    ensures multiset(sp + s)[c] == multiset(s)[c] && multiset(s + sp)[c] == multiset(s)[c]
  {
    assert multiset(sp + s) == multiset(sp) + multiset(s);
    assert multiset(s + sp) == multiset(s) + multiset(sp);
    assert c !in sp;
  }

  /** `s` with every character of `bad` deleted; `s.replace(c, '')` is `Without(s, {c})`. */
  function Without(s: string, bad: set<char>): (r: string)
    ensures |r| <= |s|
    ensures forall k :: 0 <= k < |r| ==> r[k] !in bad && r[k] in s
  {
    if s == [] then []
    else
      var rest := Without(s[1..], bad);
      assert s == [s[0]] + s[1..];
      if s[0] in bad then rest else [s[0]] + rest
  }

  /** Deleting one set of characters and then another is deleting both at once. */
  lemma {:induction false} WithoutWithout(s: string, a: set<char>, b: set<char>)
    ensures Without(Without(s, a), b) == Without(s, a + b)
  {
    if s != [] {
      WithoutWithout(s[1..], a, b);
    }
  }

  /** `Without` deletes the characters of `bad` only: every other character keeps its count. */
  lemma {:induction false} WithoutKeeps(s: string, bad: set<char>, c: char)
    requires c !in bad
    ensures multiset(Without(s, bad))[c] == multiset(s)[c]
  {
    if s != [] {
      WithoutKeeps(s[1..], bad, c);
      var rest := Without(s[1..], bad);
      assert s == [s[0]] + s[1..];
      assert multiset(s) == multiset([s[0]]) + multiset(s[1..]);
      if s[0] !in bad {
        assert Without(s, bad) == [s[0]] + rest;
        assert multiset([s[0]] + rest) == multiset([s[0]]) + multiset(rest);
      }
    }
  }

  /** Deleting from a concatenation deletes from each part. */
  lemma {:induction false} WithoutConcat(a: string, b: string, bad: set<char>)
    ensures Without(a + b, bad) == Without(a, bad) + Without(b, bad)
  {
    if a != [] {
      assert (a + b)[1..] == a[1..] + b;
      WithoutConcat(a[1..], b, bad);
    } else {
      assert a + b == b;
    }
  }

  /** A string that holds none of `bad` is left alone by `Without`. */
  lemma {:induction false} WithoutNoop(s: string, bad: set<char>)
    requires forall k :: 0 <= k < |s| ==> s[k] !in bad
    ensures Without(s, bad) == s
  {
    if s != [] {
      WithoutNoop(s[1..], bad);
    }
  }

  /** `s.rfind(c)`: the index of the last `c` in `s`, or -1. */
  function RFind(s: string, c: char): (r: int)
    ensures -1 <= r < |s|
    ensures r >= 0 ==> s[r] == c
    ensures forall k :: r < k < |s| ==> s[k] != c
  {
    if s == [] then -1
    else if s[|s| - 1] == c then |s| - 1
    else RFind(s[..|s| - 1], c)
  }

  /** Python's `s[i:]`, where a negative `i` counts from the end and is clamped at 0. */
  function SliceFrom(s: string, i: int): (r: string)
    ensures |r| <= |s| && r == s[|s| - |r|..]
    ensures 0 <= i <= |s| ==> |r| == |s| - i
    ensures i < 0 ==> |r| == if -i <= |s| then -i else |s|
  {
    if i < 0 then (if |s| + i < 0 then s else s[|s| + i..])
    else if i > |s| then []
    else s[i..]
  }

  function DigitChar(d: nat): (c: char)
    requires d < 10
    ensures IsDigit(c)
  {
    ('0' as int + d) as char
  }

  function DigitValue(c: char): (d: nat)
    requires IsDigit(c)
    ensures d < 10 && DigitChar(d) == c
  {
    (c as int - '0' as int) as nat
  }

  /** Reading back the character of a digit gives the digit. */
  lemma DigitRoundTrip(d: nat)
    requires d < 10
    ensures DigitValue(DigitChar(d)) == d
  {
  }

  /** `str(n)` for a natural number: its decimal digits. */
  function NatToString(n: nat): (r: string)
    ensures |r| > 0
    ensures forall k :: 0 <= k < |r| ==> IsDigit(r[k])
  {
    if n < 10 then [DigitChar(n)] else NatToString(n / 10) + [DigitChar(n % 10)]
  }

  /** `str(n)` for any integer. */
  function IntToString(n: int): (r: string)
    ensures |r| > 0
    ensures n < 0 <==> r[0] == '-'
  {
    if n < 0 then "-" + NatToString(-n) else NatToString(n)
  }

  /** The number a string of decimal digits denotes. */
  function DigitsValue(s: string): (n: nat)
    requires forall k :: 0 <= k < |s| ==> IsDigit(s[k])
  {
    if s == [] then 0 else 10 * DigitsValue(s[..|s| - 1]) + DigitValue(s[|s| - 1])
  }

  /** Reading back the digits `str(n)` prints gives `n`. */
  lemma {:induction false} NatToStringRoundTrip(n: nat)
    ensures DigitsValue(NatToString(n)) == n
  {
    if n >= 10 {
      NatToStringRoundTrip(n / 10);
      DigitRoundTrip(n % 10);
      var s := NatToString(n);
      assert s[..|s| - 1] == NatToString(n / 10);
    } else {
      DigitRoundTrip(n);
    }
  }

  /** The number of decimal digits `s` starts with. */
  function LeadingDigits(s: string): (n: nat)
    ensures n <= |s|
    ensures forall k :: 0 <= k < n ==> IsDigit(s[k])
    ensures n == |s| || !IsDigit(s[n])
  {
    if s != [] && IsDigit(s[0]) then 1 + LeadingDigits(s[1..]) else 0
  }

  /** A numeral followed by text that does not start with a digit: the numeral is exactly the leading digits. */
  lemma {:induction false} LeadingDigitsOf(a: string, x: string)
    requires forall k :: 0 <= k < |a| ==> IsDigit(a[k])
    requires x == [] || !IsDigit(x[0])
    ensures LeadingDigits(a + x) == |a|
  {
    if a != [] {
      assert (a + x)[1..] == a[1..] + x;
      LeadingDigitsOf(a[1..], x);
    }
  }
}
