/** `Imgur_Downloader.replace_characters`: making an album title usable as a folder name. */
module Sanitizer {
  import opened Text

  /** The characters removed, in the order the source removes them. */
  const InvalidCharacters: seq<char> := ['\\', '\'', '/', ':', '*', '?', '"', '<', '>', '|', '.', '\n']

  function CharSet(s: seq<char>): set<char> {
    set c | c in s
  }

  predicate IsInvalid(c: char) {
    c in InvalidCharacters
  }

  /** What `replace_characters` returns: every invalid character deleted, then whitespace stripped. */
  function Sanitize(word: string): (r: string)
    ensures forall k :: 0 <= k < |r| ==> !IsInvalid(r[k])
    ensures NoOuterSpace(r)
  {
    var deleted := Without(word, CharSet(InvalidCharacters));
    assert forall k :: 0 <= k < |deleted| ==> !IsInvalid(deleted[k]);
    var r := Strip(deleted);
    StripInside(deleted);
    r
  }

  lemma StripInside(s: string)
    ensures forall k :: 0 <= k < |Strip(s)| ==> Strip(s)[k] in s
  {
    TrimStartInside(s);
    TrimEndInside(TrimStart(s));
  }

  /** The source's loop: one `str.replace(c, '')` per invalid character, then `strip()`. */
  method ReplaceCharacters(word: string) returns (r: string)
    ensures r == Sanitize(word)
  {
    r := word;
    WithoutNoop(word, {});
    assert CharSet(InvalidCharacters[..0]) == {};
    for i := 0 to |InvalidCharacters|
      invariant r == Without(word, CharSet(InvalidCharacters[..i]))
    {
      WithoutWithout(word, CharSet(InvalidCharacters[..i]), {InvalidCharacters[i]});
      assert CharSet(InvalidCharacters[..i + 1]) == CharSet(InvalidCharacters[..i]) + {InvalidCharacters[i]} by {
        assert InvalidCharacters[..i + 1] == InvalidCharacters[..i] + [InvalidCharacters[i]];
      }
      r := Without(r, {InvalidCharacters[i]});
    }
    assert InvalidCharacters[..|InvalidCharacters|] == InvalidCharacters;
    r := Strip(r);
  }

  /** Sanitising a sanitised name changes nothing. */
  lemma SanitizeIdempotent(word: string)
    ensures Sanitize(Sanitize(word)) == Sanitize(word)
  {
    var r := Sanitize(word);
    WithoutNoop(r, CharSet(InvalidCharacters));
    StripNoop(r);
  }

  /** Only invalid characters and surrounding whitespace are removed: every other character keeps its count. */
  lemma SanitizeKeeps(word: string, c: char)
    requires !IsInvalid(c) && !IsSpace(c)
    ensures multiset(Sanitize(word))[c] == multiset(word)[c]
  {
    WithoutKeeps(word, CharSet(InvalidCharacters), c);
    StripKeepsNonSpace(Without(word, CharSet(InvalidCharacters)), c);
  }

  /** A title made only of invalid characters and whitespace sanitises to the empty name. */
  lemma SanitizeToEmpty(word: string)
    requires forall k :: 0 <= k < |word| ==> IsInvalid(word[k]) || IsSpace(word[k])
    ensures Sanitize(word) == []
  {
    var r := Sanitize(word);
    if r != [] {
      assert r[0] in Without(word, CharSet(InvalidCharacters)) by { StripInside(Without(word, CharSet(InvalidCharacters))); }
      assert false;
    }
  }

  /** The strings of `ps`, one after the other. */
  function Concat(ps: seq<string>): string {
    if ps == [] then [] else ps[0] + Concat(ps[1..])
  }

  /** `ps` is made of pairs: a character of `bad` followed by one that is not. */
  predicate DeletedThenKept(ps: seq<string>, bad: set<char>) {
    forall i :: 0 <= i < |ps| ==> |ps[i]| == 2 && ps[i][0] in bad && ps[i][1] !in bad
  }

  /** Deleting `bad` from such pairs leaves the second character of each, in order. */
  lemma {:induction false} WithoutPairs(ps: seq<string>, bad: set<char>)
    requires DeletedThenKept(ps, bad)
    ensures Without(Concat(ps), bad) == seq(|ps|, i requires 0 <= i < |ps| => ps[i][1])
  {
    if ps != [] {
      var p := ps[0];
      WithoutPairs(ps[1..], bad);
      WithoutConcat(p, Concat(ps[1..]), bad);
      assert p == [p[0]] + [p[1]];
      WithoutConcat([p[0]], [p[1]], bad);
    }
  }

  /**
   * The title of the test suite, `\\a'b/c:d*e?f"g<h>i|j.k` + newline + `l`, cut into its pairs of a
   * removed character and a kept letter.
   */
  const ExamplePairs: seq<string> := ["\\a", "'b", "/c", ":d", "*e", "?f", "\"g", "<h", ">i", "|j", ".k", "\nl"]

  lemma ExamplePairsAlternate()
    ensures DeletedThenKept(ExamplePairs, CharSet(InvalidCharacters))
  {
    assert forall i :: 0 <= i < |ExamplePairs| ==>
      |ExamplePairs[i]| == 2 && IsInvalid(ExamplePairs[i][0]) && 'a' <= ExamplePairs[i][1] <= 'z';
  }

  lemma ExampleLetters()
    ensures seq(|ExamplePairs|, i requires 0 <= i < |ExamplePairs| => ExamplePairs[i][1]) == "abcdefghijkl"
  {
  }

  lemma ExampleDeleted(title: string)
    requires title == Concat(ExamplePairs)
    ensures Without(title, CharSet(InvalidCharacters)) == "abcdefghijkl"
  {
    ExamplePairsAlternate();
    WithoutPairs(ExamplePairs, CharSet(InvalidCharacters));
    ExampleLetters();
  }

  /** A title whose deletions leave a name without outer whitespace sanitises to that name. */
  lemma SanitizeOf(word: string, kept: string)
    requires Without(word, CharSet(InvalidCharacters)) == kept && NoOuterSpace(kept)
    ensures Sanitize(word) == kept
  {
    StripNoop(kept);
  }

  lemma ExampleStripped(title: string)
    requires Without(title, CharSet(InvalidCharacters)) == "abcdefghijkl"
    ensures Sanitize(title) == "abcdefghijkl"
  {
    assert NoOuterSpace("abcdefghijkl");
    SanitizeOf(title, "abcdefghijkl");
  }

  /** The example of the test suite. */
  lemma SanitizeExample(title: string)
    requires title == Concat(ExamplePairs)
    ensures Sanitize(title) == "abcdefghijkl"
  {
    ExampleDeleted(title);
    ExampleStripped(title);
  }
}
