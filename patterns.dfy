/**
 * The regular expressions of the core, each a literal marker followed by word characters,
 * matched by explicit scanning with the semantics of Python's `re.search`: the leftmost
 * start position at which the pattern matches wins, and `\w+` is greedy.
 */
module Patterns {
  import opened Wrappers
  import opened Text

  datatype Pattern =
    | Word(marker: string)      // (marker)(\w+)
    | WordPair(marker: string)  // (marker)(\w+\/\w+)
    | WordAtEnd(marker: string) // (marker)(\w+)$

  /** `marker` occurs in `s` at position `p`. */
  predicate HasAt(s: string, marker: string, p: nat) {
    p + |marker| <= |s| && s[p..p + |marker|] == marker
  }

  /** The length of the maximal run of word characters in `s` from position `i`. */
  function WordRun(s: string, i: nat): (n: nat)
    requires i <= |s|
    ensures i + n <= |s|
    decreases |s| - i
  {
    if i < |s| && IsWordChar(s[i]) then 1 + WordRun(s, i + 1) else 0
  }

  /** The run is made of word characters and is maximal: the character after it is not one. */
  lemma {:induction false} WordRunMaximal(s: string, i: nat)
    requires i <= |s|
    ensures forall k :: i <= k < i + WordRun(s, i) ==> IsWordChar(s[k])
    ensures i + WordRun(s, i) == |s| || !IsWordChar(s[i + WordRun(s, i)])
    decreases |s| - i
  {
    if i < |s| && IsWordChar(s[i]) {
      WordRunMaximal(s, i + 1);
    }
  }

  /** A subreddit image id: two word runs joined by one `/`. */
  predicate IsPairId(t: string) {
    exists k :: 0 < k < |t| && t[k] == '/' && IsWordRun(t[..k]) && IsWordRun(t[k + 1..])
  }

  /** Python's `$` without MULTILINE: at the end of `s`, or just before a final newline. */
  predicate AtEnd(s: string, j: nat) {
    j == |s| || (j + 1 == |s| && s[j] == '\n')
  }

  /** `(\w+)` at position `i`: the maximal word run there, when it is not empty. */
  function WordAt(s: string, i: nat): Option<string>
    requires i <= |s|
  {
    var n := WordRun(s, i);
    if n == 0 then None else Some(s[i..i + n])
  }

  /** A word capture is the text at `i`, a word run, and is not followed by another word character. */
  lemma WordAtShape(s: string, i: nat)
    requires i <= |s| && WordAt(s, i).Some?
    ensures var r := WordAt(s, i).value;
      i + |r| <= |s| && r == s[i..i + |r|] && IsWordRun(r) && (i + |r| == |s| || !IsWordChar(s[i + |r|]))
  {
    WordRunMaximal(s, i);
  }

  /** `(\w+\/\w+)` at position `i`: a maximal word run, a `/`, and the maximal word run after it. */
  function PairAt(s: string, i: nat): Option<string>
    requires i <= |s|
  {
    match WordAt(s, i)
    case None => None
    case Some(left) =>
      var j := i + |left|;
      if j < |s| && s[j] == '/' then
        match WordAt(s, j + 1)
        case None => None
        case Some(right) => Some(left + "/" + right)
      else None
  }

  /** Two word runs joined by `/` form a pair id. */
  lemma JoinedIsPairId(left: string, right: string)
    requires IsWordRun(left) && IsWordRun(right)
    ensures IsPairId(left + "/" + right)
  {
    var t := left + "/" + right;
    assert t[|left|] == '/' && t[..|left|] == left && t[|left| + 1..] == right;
  }

  /** Two adjacent slices of `s` around the character at `j` make up the slice across them. */
  lemma SliceAround(s: string, i: nat, j: nat, e: nat)
    requires i <= j < e <= |s|
    ensures s[i..e] == s[i..j] + [s[j]] + s[j + 1..e]
  {
  }

  /** A pair capture is the text at `i`, and it is two word runs joined by one `/`. */
  lemma PairAtShape(s: string, i: nat)
    requires i <= |s| && PairAt(s, i).Some?
    ensures var r := PairAt(s, i).value; i + |r| <= |s| && r == s[i..i + |r|] && IsPairId(r)
  {
    WordAtShape(s, i);
    var left := WordAt(s, i).value;
    var j := i + |left|;
    WordAtShape(s, j + 1);
    var right := WordAt(s, j + 1).value;
    assert PairAt(s, i).value == left + "/" + right;
    JoinedIsPairId(left, right);
    SliceAround(s, i, j, j + 1 + |right|);
  }

  /** The captured group when `pat` matches `s` starting exactly at `p`. */
  function MatchAt(pat: Pattern, s: string, p: nat): (r: Option<string>)
    requires p <= |s|
    ensures r.Some? ==> HasAt(s, pat.marker, p)
  {
    if !HasAt(s, pat.marker, p) then None
    else
      var i := p + |pat.marker|;
      match pat
      case Word(_) => WordAt(s, i)
      case WordAtEnd(_) =>
        var w := WordAt(s, i);
        if w.Some? && AtEnd(s, i + |w.value|) then w else None
      case WordPair(_) => PairAt(s, i)
  }

  /** What a match at `p` captures: the text right after the marker, a maximal word run or `word/word`. */
  lemma MatchAtShape(pat: Pattern, s: string, p: nat)
    requires p <= |s| && MatchAt(pat, s, p).Some?
    ensures var i, r := p + |pat.marker|, MatchAt(pat, s, p).value;
      i + |r| <= |s| && r == s[i..i + |r|]
    ensures var j, r := p + |pat.marker| + |MatchAt(pat, s, p).value|, MatchAt(pat, s, p).value;
      !pat.WordPair? ==> IsWordRun(r) && (j == |s| || !IsWordChar(s[j]))
    ensures pat.WordAtEnd? ==> AtEnd(s, p + |pat.marker| + |MatchAt(pat, s, p).value|)
    ensures pat.WordPair? ==> IsPairId(MatchAt(pat, s, p).value)
  {
    var i := p + |pat.marker|;
    if pat.WordPair? {
      PairAtShape(s, i);
    } else {
      WordAtShape(s, i);
    }
  }

  /** The first present entry of `ms` at or after `p`: a scan that stops at the first success. */
  function FirstSome<T>(ms: seq<Option<T>>, p: nat): Option<T>
    requires p <= |ms|
    decreases |ms| - p
  {
    if p == |ms| then None
    else if ms[p].Some? then ms[p]
    else FirstSome(ms, p + 1)
  }

  /** The scan fails exactly when every entry from `p` on is absent. */
  lemma {:induction false} FirstSomeNone<T>(ms: seq<Option<T>>, p: nat)
    requires p <= |ms|
    ensures FirstSome(ms, p).None? <==> forall q :: p <= q < |ms| ==> ms[q].None?
    decreases |ms| - p
  {
    if p < |ms| && ms[p].None? {
      FirstSomeNone(ms, p + 1);
    }
  }

  /** A successful scan returns the entry at the least present position at or after `p`. */
  lemma {:induction false} FirstSomeLeftmost<T>(ms: seq<Option<T>>, p: nat)
    requires p <= |ms| && FirstSome(ms, p).Some?
    ensures exists q :: (p <= q < |ms| && ms[q] == FirstSome(ms, p)
      && forall q' :: p <= q' < q ==> ms[q'].None?)
    decreases |ms| - p
  {
    if ms[p].None? {
      FirstSomeLeftmost(ms, p + 1);
      var q :| p + 1 <= q < |ms| && ms[q] == FirstSome(ms, p + 1)
        && forall q' :: p + 1 <= q' < q ==> ms[q'].None?;
      assert forall q' :: p <= q' < q ==> ms[q'].None?;
    }
  }

  /** The outcome of trying the pattern at every start position of `s`, from 0 to `|s|`, in order. */
  function Attempts(pat: Pattern, s: string): (r: seq<Option<string>>)
    ensures |r| == |s| + 1 && forall q :: 0 <= q <= |s| ==> r[q] == MatchAt(pat, s, q)
  {
    seq(|s| + 1, q requires 0 <= q <= |s| => MatchAt(pat, s, q))
  }

  /** The captured group of `re.search(pat, s)`, or None when the pattern does not match. */
  function Search(pat: Pattern, s: string): Option<string> {
    FirstSome(Attempts(pat, s), 0)
  }

  /** `re.search` returns the match that starts leftmost, and fails exactly when no position matches. */
  lemma SearchLeftmost(pat: Pattern, s: string)
    ensures Search(pat, s).None? <==> forall q :: 0 <= q <= |s| ==> MatchAt(pat, s, q).None?
    ensures Search(pat, s).Some? ==>
      (exists q :: 0 <= q <= |s| && MatchAt(pat, s, q) == Search(pat, s)
         && forall q' :: 0 <= q' < q ==> MatchAt(pat, s, q').None?)
  {
    var ms := Attempts(pat, s);
    FirstSomeNone(ms, 0);
    if Search(pat, s).Some? {
      FirstSomeLeftmost(ms, 0);
      var q :| 0 <= q < |ms| && ms[q] == FirstSome(ms, 0) && forall q' :: 0 <= q' < q ==> ms[q'].None?;
      assert forall q' :: 0 <= q' < q ==> MatchAt(pat, s, q').None?;
    }
  }

  /** A match at `p` with none before it is what the search returns. */
  lemma SearchFinds(pat: Pattern, s: string, p: nat, r: string)
    requires p <= |s| && MatchAt(pat, s, p) == Some(r)
    requires forall q :: 0 <= q < p ==> MatchAt(pat, s, q).None?
    ensures Search(pat, s) == Some(r)
  {
    SearchLeftmost(pat, s);
  }

  /** What a successful search captures: a maximal word run after the marker, or for the pair pattern `word/word`. */
  lemma SearchShape(pat: Pattern, s: string)
    requires Search(pat, s).Some?
    ensures pat.WordPair? ==> IsPairId(Search(pat, s).value)
    ensures !pat.WordPair? ==> IsWordRun(Search(pat, s).value)
  {
    SearchLeftmost(pat, s);
    var q :| 0 <= q <= |s| && MatchAt(pat, s, q) == Search(pat, s);
    MatchAtShape(pat, s, q);
  }

  /** When the marker occurs nowhere in `s` the pattern does not match. */
  lemma SearchNeedsMarker(pat: Pattern, s: string)
    requires forall q :: 0 <= q <= |s| ==> !HasAt(s, pat.marker, q)
    ensures Search(pat, s).None?
  {
    SearchLeftmost(pat, s);
  }

  /** The pattern cannot match at `p` when the character at `p + j` differs from the marker's `j`-th. */
  lemma MismatchAt(pat: Pattern, s: string, p: nat, j: nat)
    requires p <= |s| && j < |pat.marker|
    requires p + j >= |s| || s[p + j] != pat.marker[j]
    ensures MatchAt(pat, s, p).None?
  {
    if p + j < |s| && p + |pat.marker| <= |s| {
      assert s[p..p + |pat.marker|][j] == s[p + j];
    }
  }

  /** `m` begins and ends with `/` and has no other `/`: the shape of every URL marker. */
  predicate Delimited(m: string) {
    |m| >= 2 && m[0] == '/' && m[|m| - 1] == '/' && forall i :: 0 < i < |m| - 1 ==> m[i] != '/'
  }

  /** Where `m` occurs, its characters are those of `s`. */
  lemma MarkerChar(s: string, m: string, q: nat, j: nat)
    ensures HasAt(s, m, q) && j < |m| ==> q + j < |s| && s[q + j] == m[j]
  {
    if HasAt(s, m, q) && j < |m| {
      assert s[q..q + |m|][j] == s[q + j];
    }
  }

  /** A marker starting with `/` does not occur inside a prefix that has no `/`. */
  lemma MarkerNotBefore(pre: string, rest: string, d: string, q: nat)
    requires '/' !in pre && |d| > 0 && d[0] == '/' && q < |pre|
    ensures !HasAt(pre + rest, d, q)
  {
    MarkerChar(pre + rest, d, q, 0);
    assert (pre + rest)[q] == pre[q];
  }

  /** A marker starting with `/` does not start strictly inside a written delimited marker. */
  lemma MarkerNotInside(pre: string, m: string, rest: string, d: string, q: nat)
    requires Delimited(m) && |d| > 0 && d[0] == '/' && |pre| < q < |pre| + |m| - 1
    ensures !HasAt(pre + m + rest, d, q)
  {
    MarkerChar(pre + m + rest, d, q, 0);
    assert (pre + m + rest)[q] == m[q - |pre|];
  }

  /** A delimited marker found where the delimited `m` is written is `m` itself. */
  lemma MarkerAtWritten(pre: string, m: string, rest: string, d: string)
    requires Delimited(m) && Delimited(d) && HasAt(pre + m + rest, d, |pre|)
    ensures d == m
  {
    var s := pre + m + rest;
    var p := |pre|;
    assert forall j :: 0 <= j < |m| ==> s[p + j] == m[j];
    MarkerChar(s, d, p, |d| - 1);
    MarkerChar(s, d, p, |m| - 1);
    if |d| == |m| {
      assert s[p..p + |m|] == m;
    }
  }

  /** No delimited marker starts at or after the closing `/` of `m` when no `/` follows it. */
  lemma MarkerNotAfter(pre: string, m: string, t: string, d: string, q: nat)
    requires Delimited(m) && Delimited(d) && '/' !in t && |pre| + |m| - 1 <= q
    ensures !HasAt(pre + m + t, d, q)
  {
    var s := pre + m + t;
    var j := if q == |pre| + |m| - 1 then |d| - 1 else 0;
    MarkerChar(s, d, q, j);
    if q + j < |s| {
      assert s[q + j] == t[q + j - |pre| - |m|];
    }
  }

  /** From the written delimited `m` on, with no `/` after it, a delimited marker occurs only as `m` itself. */
  lemma MarkerFromWritten(pre: string, m: string, t: string, d: string, q: nat)
    requires '/' !in t && Delimited(m) && Delimited(d) && |pre| <= q && HasAt(pre + m + t, d, q)
    ensures q == |pre| && d == m
  {
    if q == |pre| {
      MarkerAtWritten(pre, m, t, d);
    } else if q < |pre| + |m| - 1 {
      MarkerNotInside(pre, m, t, d, q);
    } else {
      MarkerNotAfter(pre, m, t, d, q);
    }
  }

  /** In `pre + m + t`, with no `/` in `pre` or `t`, a delimited marker occurs only as the written `m`. */
  lemma OnlyWrittenMarker(pre: string, m: string, t: string, d: string)
    requires '/' !in pre && '/' !in t && Delimited(m) && Delimited(d)
    ensures forall q: nat :: HasAt(pre + m + t, d, q) ==> q == |pre| && d == m
  {
    assert pre + (m + t) == pre + m + t;
    forall q: nat | HasAt(pre + m + t, d, q) ensures q == |pre| && d == m {
      if q < |pre| {
        MarkerNotBefore(pre, m + t, d, q);
      } else {
        MarkerFromWritten(pre, m, t, d, q);
      }
    }
  }

  /** A segment with no `/`, between two `/`, is delimited. */
  lemma SegmentDelimited(a: string)
    requires '/' !in a
    ensures Delimited("/" + a + "/")
  {
    forall j | 0 < j < |a| + 1 ensures ("/" + a + "/")[j] != '/' {
      assert ("/" + a + "/")[j] == a[j - 1];
    }
  }

  /**
   * In `pre/a/b/rest`, with no `/` in `pre`, `a` or `b`, a delimited marker that starts before the
   * third `/` is `/a/` at the first `/` or `/b/` at the second.
   */
  lemma TwoSegments(pre: string, a: string, b: string, rest: string, d: string, q: nat)
    requires '/' !in pre && '/' !in a && '/' !in b && Delimited(d)
    requires HasAt(pre + "/" + a + "/" + b + "/" + rest, d, q) && q < |pre| + |a| + |b| + 2
    ensures (q == |pre| && d == "/" + a + "/") || (q == |pre| + |a| + 1 && d == "/" + b + "/")
  {
    var s := pre + "/" + a + "/" + b + "/" + rest;
    var sa, sb := "/" + a + "/", "/" + b + "/";
    assert s == pre + sa + (b + "/" + rest);
    assert s == (pre + "/" + a) + sb + rest;
    assert pre + (sa + (b + "/" + rest)) == s;
    SegmentDelimited(a);
    SegmentDelimited(b);
    if q < |pre| {
      MarkerNotBefore(pre, sa + (b + "/" + rest), d, q);
    } else if q == |pre| {
      MarkerAtWritten(pre, sa, b + "/" + rest, d);
    } else if q < |pre| + |a| + 1 {
      MarkerNotInside(pre, sa, b + "/" + rest, d, q);
    } else if q == |pre| + |a| + 1 {
      MarkerAtWritten(pre + "/" + a, sb, rest, d);
    } else {
      MarkerNotInside(pre + "/" + a, sb, rest, d, q);
    }
  }

  /** A word run holds no `/`. */
  lemma WordRunNoSlash(w: string, post: string)
    requires (w == [] || IsWordRun(w)) && '/' !in post
    ensures '/' !in w + post
  {
    forall k | 0 <= k < |w + post| ensures (w + post)[k] != '/' {
      if k < |w| {
        assert (w + post)[k] == w[k];
      } else {
        assert (w + post)[k] == post[k - |w|];
      }
    }
  }

  /** When the marker does not occur before `p` and the pattern matches at `p`, that is the search result. */
  lemma SearchFirstMarker(pat: Pattern, s: string, p: nat, r: string)
    requires p <= |s| && MatchAt(pat, s, p) == Some(r)
    requires forall q :: 0 <= q < p ==> !HasAt(s, pat.marker, q)
    ensures Search(pat, s) == Some(r)
  {
    SearchFinds(pat, s, p, r);
  }

  /** When the marker occurs at most at `p` and the pattern fails there, the search fails. */
  lemma SearchMarkerOnlyAt(pat: Pattern, s: string, p: nat)
    requires p <= |s| && MatchAt(pat, s, p).None?
    requires forall q :: 0 <= q <= |s| && q != p ==> !HasAt(s, pat.marker, q)
    ensures Search(pat, s).None?
  {
    SearchLeftmost(pat, s);
  }

  /** `WordAt` where the maximal word run from `i` has length `n`. */
  lemma WordAtIs(s: string, i: nat, n: nat)
    requires i + n <= |s|
    requires forall k :: i <= k < i + n ==> IsWordChar(s[k])
    requires i + n == |s| || !IsWordChar(s[i + n])
    ensures WordAt(s, i) == if n == 0 then None else Some(s[i..i + n])
  {
    WordRunMaximal(s, i);
  }

  /** `WordAt` on a text laid out as `pre`, a maximal word run `w` (possibly empty), then `post`. */
  lemma WordAtOf(pre: string, w: string, post: string)
    requires w == [] || IsWordRun(w)
    requires post == [] || !IsWordChar(post[0])
    ensures WordAt(pre + w + post, |pre|) == if w == [] then None else Some(w)
  {
    var s := pre + w + post;
    var i := |pre|;
    forall k | i <= k < i + |w| ensures IsWordChar(s[k]) {
      assert s[k] == w[k - i];
    }
    if post != [] {
      assert s[i + |w|] == post[0];
    }
    WordAtIs(s, i, |w|);
    assert s[i..i + |w|] == w;
  }

  /** The marker right after `x` is found at position `|x|`. */
  lemma MarkerOf(x: string, m: string, rest: string)
    ensures HasAt(x + m + rest, m, |x|)
  {
    assert (x + m + rest)[|x|..|x| + |m|] == m;
  }

  /** A single-group pattern at `p` where the marker is followed by the word capture `w`, then `post`. */
  lemma MatchWordAt(pat: Pattern, s: string, p: nat, w: Option<string>, post: string)
    requires !pat.WordPair? && p <= |s|
    requires HasAt(s, pat.marker, p) && WordAt(s, p + |pat.marker|) == w
    requires s[p + |pat.marker| + (if w.Some? then |w.value| else 0)..] == post
    ensures MatchAt(pat, s, p) == if w.None? || (pat.WordAtEnd? && post != [] && post != "\n") then None else w
  {
    if w.Some? && pat.WordAtEnd? {
      var j := p + |pat.marker| + |w.value|;
      assert AtEnd(s, j) <==> post == [] || post == "\n";
    }
  }

  /**
   * A single-group pattern at `|x|` in `x`, the marker, a maximal word run `w`, then `post`:
   * the run is captured when it is not empty (and, for the anchored form, when only an optional
   * final newline follows).
   */
  lemma MatchWordOf(s: string, pat: Pattern, x: string, w: string, post: string)
    requires s == x + pat.marker + w + post
    requires !pat.WordPair?
    requires w == [] || IsWordRun(w)
    requires post == [] || !IsWordChar(post[0])
    ensures MatchAt(pat, s, |x|) == if w == [] || (pat.WordAtEnd? && post != [] && post != "\n") then None else Some(w)
  {
    MarkerOf(x, pat.marker, w + post);
    assert s == (x + pat.marker) + w + post;
    WordAtOf(x + pat.marker, w, post);
    assert s[|x| + |pat.marker| + |w|..] == post;
    MatchWordAt(pat, s, |x|, WordAt(s, |x| + |pat.marker|), post);
  }

  /** The pair pattern at `p`, whose capture starts at `i`: a first word capture, a `/` and a second one. */
  lemma PairAtIs(m: string, s: string, p: nat, i: nat, a: string, b: Option<string>)
    requires i == p + |m| && i <= |s| && HasAt(s, m, p) && WordAt(s, i) == Some(a)
    requires i + |a| < |s| && s[i + |a|] == '/' && WordAt(s, i + |a| + 1) == b
    ensures MatchAt(WordPair(m), s, p) == if b.None? then None else Some(a + "/" + b.value)
  {
    assert MatchAt(WordPair(m), s, p) == PairAt(s, i);
  }

  /** The pair pattern where the first word run is not followed by `/` does not match. */
  lemma PairNoSlashOf(s: string, m: string, x: string, w: string, post: string)
    requires s == x + m + w + post
    requires w == [] || IsWordRun(w)
    requires post == [] || (!IsWordChar(post[0]) && post[0] != '/')
    ensures MatchAt(WordPair(m), s, |x|).None?
  {
    MarkerOf(x, m, w + post);
    assert s == (x + m) + w + post;
    WordAtOf(x + m, w, post);
    if post != [] {
      assert s[|x| + |m| + |w|] == post[0];
    }
  }

  /** The pieces of `pre + a + "/" + rest` around the slash. */
  lemma SlashSplit(pre: string, a: string, rest: string)
    ensures var s := pre + a + "/" + rest;
      s == pre + a + ("/" + rest) && s == (pre + a + "/") + rest && s[|pre| + |a|] == '/'
  {
  }

  /** The first word capture of `pre + a + "/" + b + post`, before the slash. */
  lemma FirstWordOf(pre: string, a: string, b: string, post: string)
    requires IsWordRun(a)
    ensures WordAt(pre + a + "/" + (b + post), |pre|) == Some(a)
  {
    SlashSplit(pre, a, b + post);
    WordAtOf(pre, a, "/" + (b + post));
  }

  /** The second word capture of `pre + a + "/" + b + post`, after the slash. */
  lemma SecondWordOf(pre: string, a: string, b: string, post: string)
    requires b == [] || IsWordRun(b)
    requires post == [] || !IsWordChar(post[0])
    ensures WordAt(pre + a + "/" + (b + post), |pre| + |a| + 1) == (if b == [] then None else Some(b))
  {
    var q := pre + a + "/";
    assert q + (b + post) == q + b + post;
    WordAtOf(q, b, post);
  }

  /** The pair pattern on `s`, laid out as `x`, the marker, word runs `a` and `b` joined by `/`, then `post`. */
  lemma PairOf(s: string, m: string, x: string, a: string, b: string, post: string)
    requires s == (x + m) + a + "/" + (b + post)
    requires IsWordRun(a) && (b == [] || IsWordRun(b))
    requires post == [] || !IsWordChar(post[0])
    ensures MatchAt(WordPair(m), s, |x|) == if b == [] then None else Some(a + "/" + b)
  {
    var i := |x| + |m|;
    assert HasAt(s, m, |x|) by {
      assert x + m + (a + "/" + (b + post)) == s;
      MarkerOf(x, m, a + "/" + (b + post));
    }
    assert WordAt(s, i) == Some(a) && WordAt(s, i + |a| + 1) == (if b == [] then None else Some(b)) by {
      FirstWordOf(x + m, a, b, post);
      SecondWordOf(x + m, a, b, post);
    }
    assert i + |a| < |s| && s[i + |a|] == '/' by {
      SlashSplit(x + m, a, b + post);
    }
    PairAtIs(m, s, |x|, i, a, WordAt(s, i + |a| + 1));
  }

  /**
   * No match starts in `[lo, lo + |js|)`, witnessed by one mismatching marker offset per position:
   * at position `lo + i` the character `js[i]` further on differs from the marker (or lies past the end).
   */
  lemma NoMatchIn(pat: Pattern, s: string, lo: nat, js: seq<nat>)
    requires lo + |js| <= |s| + 1
    requires forall i :: 0 <= i < |js| ==>
      js[i] < |pat.marker| && (lo + i + js[i] >= |s| || s[lo + i + js[i]] != pat.marker[js[i]])
    ensures forall q :: lo <= q < lo + |js| ==> MatchAt(pat, s, q).None?
  {
    forall q | lo <= q < lo + |js| ensures MatchAt(pat, s, q).None? {
      MismatchAt(pat, s, q, js[q - lo]);
    }
  }
}
