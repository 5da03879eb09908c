/** `Imgur_Downloader.parse_id`: classifying an Imgur URL into a resource kind and an id. */
module UrlResolver {
  import opened Wrappers
  import opened Text
  import opened Patterns

  /** The keys of the source's pattern table, in its order. */
  datatype Kind = Album | Gallery | Subreddit | Tag

  datatype Rule = Rule(kind: Kind, pattern: Pattern)

  /** Raised by `parse_id` when no pattern matches. */
  datatype UrlIdNotFoundError = UrlIdNotFoundError(message: string)

  /** The pattern table flattened in iteration order: kinds in insertion order, patterns in list order. */
  const Rules: seq<Rule> := [
    Rule(Album, Word("/a/")),
    Rule(Gallery, Word("/g/")),
    Rule(Gallery, Word("/gallery/")),
    Rule(Subreddit, WordPair("/r/")),
    Rule(Subreddit, WordAtEnd("/r/")),
    Rule(Tag, Word("/t/"))
  ]

  /** Rule `i` is the first of `rules` whose pattern `re.search` finds in `url`. */
  predicate FirstRule(rules: seq<Rule>, url: string, i: int) {
    0 <= i < |rules| && Search(rules[i].pattern, url).Some?
    && forall j :: 0 <= j < i ==> Search(rules[j].pattern, url).None?
  }

  /** The nested loops with early return: the first rule that matches decides. */
  function FirstMatch(rules: seq<Rule>, url: string): (r: Result<(Kind, string), UrlIdNotFoundError>)
    ensures r.Err? ==> r.error == UrlIdNotFoundError("ID structure not found")
  {
    if rules == [] then Err(UrlIdNotFoundError("ID structure not found"))
    else match Search(rules[0].pattern, url)
      case Some(id) => Ok((rules[0].kind, id))
      case None => FirstMatch(rules[1..], url)
  }

  /** `parse_id`: the kind and id of the first rule that matches, or `UrlIdNotFoundError`. */
  function ParseId(url: string): (r: Result<(Kind, string), UrlIdNotFoundError>)
    ensures r.Err? ==> r.error == UrlIdNotFoundError("ID structure not found")
  {
    FirstMatch(Rules, url)
  }

  /** First match wins: the answer is the kind and capture of the first rule that matches. */
  lemma {:induction false} FirstMatchIsFirstRule(rules: seq<Rule>, url: string, i: int)
    requires FirstRule(rules, url, i)
    ensures FirstMatch(rules, url) == Ok((rules[i].kind, Search(rules[i].pattern, url).value))
  {
    if i > 0 {
      assert Search(rules[0].pattern, url).None?;
      assert FirstRule(rules[1..], url, i - 1) by {
        forall j | 0 <= j < i - 1 ensures Search(rules[1..][j].pattern, url).None? {
          assert rules[1..][j] == rules[j + 1];
        }
      }
      FirstMatchIsFirstRule(rules[1..], url, i - 1);
    }
  }

  /** The search fails exactly when no rule matches. */
  lemma {:induction false} FirstMatchFails(rules: seq<Rule>, url: string)
    ensures FirstMatch(rules, url).Err? <==> forall i :: 0 <= i < |rules| ==> Search(rules[i].pattern, url).None?
  {
    if rules != [] {
      FirstMatchFails(rules[1..], url);
      if Search(rules[0].pattern, url).None? {
        assert forall i :: 1 <= i < |rules| ==> rules[i] == rules[1..][i - 1];
      }
    }
  }

  /** Every answer comes from some rule that is the first to match. */
  lemma {:induction false} FirstMatchHasRule(rules: seq<Rule>, url: string)
    requires FirstMatch(rules, url).Ok?
    ensures exists i :: FirstRule(rules, url, i) && FirstMatch(rules, url).value == (rules[i].kind, Search(rules[i].pattern, url).value)
  {
    if Search(rules[0].pattern, url).Some? {
      assert FirstRule(rules, url, 0);
    } else {
      FirstMatchHasRule(rules[1..], url);
      var i :| FirstRule(rules[1..], url, i) && FirstMatch(rules[1..], url).value == (rules[1..][i].kind, Search(rules[1..][i].pattern, url).value);
      assert FirstRule(rules, url, i + 1) by {
        forall j | 1 <= j < i + 1 ensures Search(rules[j].pattern, url).None? {
          assert rules[j] == rules[1..][j - 1];
        }
      }
    }
  }

  /** `parse_id` answers `(kind, id)` exactly when the first rule to match is of that kind and captures that id. */
  lemma ParseIdFirstMatchWins(url: string, kind: Kind, id: string)
    ensures ParseId(url) == Ok((kind, id)) <==>
      exists i :: FirstRule(Rules, url, i) && Rules[i].kind == kind && Search(Rules[i].pattern, url) == Some(id)
  {
    if ParseId(url) == Ok((kind, id)) {
      FirstMatchHasRule(Rules, url);
    }
    if exists i :: FirstRule(Rules, url, i) && Rules[i].kind == kind && Search(Rules[i].pattern, url) == Some(id) {
      var i :| FirstRule(Rules, url, i) && Rules[i].kind == kind && Search(Rules[i].pattern, url) == Some(id);
      FirstMatchIsFirstRule(Rules, url, i);
    }
  }

  /** `parse_id` raises `UrlIdNotFoundError` exactly when no pattern of any kind matches. */
  lemma ParseIdFails(url: string)
    ensures ParseId(url).Err? <==> forall i :: 0 <= i < |Rules| ==> Search(Rules[i].pattern, url).None?
  {
    FirstMatchFails(Rules, url);
  }

  /** The id is never empty: a word run, or for a subreddit image `sub/img` with exactly one slash. */
  lemma ParseIdShape(url: string)
    requires ParseId(url).Ok?
    ensures IsWordRun(ParseId(url).value.1) || (ParseId(url).value.0 == Subreddit && IsPairId(ParseId(url).value.1))
  {
    FirstMatchHasRule(Rules, url);
    var i :| FirstRule(Rules, url, i) && ParseId(url).value == (Rules[i].kind, Search(Rules[i].pattern, url).value);
    SearchShape(Rules[i].pattern, url);
  }

  /** A `sub/img` id has exactly one slash. */
  lemma PairIdOneSlash(t: string)
    requires IsPairId(t)
    ensures multiset(t)['/'] == 1
  {
    var m :| 0 < m < |t| && t[m] == '/' && IsWordRun(t[..m]) && IsWordRun(t[m + 1..]);
    var left, right := t[..m], t[m + 1..];
    assert t == left + ['/'] + right;
    assert multiset(t) == multiset(left) + multiset(['/']) + multiset(right);
    assert '/' !in left by {
      assert forall k :: 0 <= k < |left| ==> IsWordChar(left[k]);
    }
    assert '/' !in right by {
      assert forall k :: 0 <= k < |right| ==> IsWordChar(right[k]);
    }
  }

  /**
   * The composite `/r/<sub>/<img>` rule is tried before the bare `/r/<sub>` one: when no album or gallery
   * rule matches and the composite does, the answer is the composite id, so a URL with a trailing image id
   * never yields the bare form.
   */
  lemma CompositeBeforeBare(url: string)
    requires forall i :: 0 <= i < 3 ==> Search(Rules[i].pattern, url).None?
    requires Search(WordPair("/r/"), url).Some?
    ensures ParseId(url) == Ok((Subreddit, Search(WordPair("/r/"), url).value))
    ensures IsPairId(ParseId(url).value.1)
  {
    assert FirstRule(Rules, url, 3);
    FirstMatchIsFirstRule(Rules, url, 3);
    SearchShape(WordPair("/r/"), url);
  }

  /** A bare subreddit id (no slash) is only answered when the composite rule did not match. */
  lemma BareOnlyWithoutComposite(url: string, id: string)
    requires ParseId(url) == Ok((Subreddit, id))
    requires '/' !in id
    ensures Search(WordPair("/r/"), url).None?
    ensures Search(WordAtEnd("/r/"), url) == Some(id)
  {
    FirstMatchHasRule(Rules, url);
    var i :| FirstRule(Rules, url, i) && ParseId(url).value == (Rules[i].kind, Search(Rules[i].pattern, url).value);
    assert Rules[3].pattern == WordPair("/r/") && Rules[4].pattern == WordAtEnd("/r/");
    if i == 3 {
      SearchShape(WordPair("/r/"), url);
      PairIdOneSlash(id);
      assert false;
    }
  }

  /** A URL holding none of the markers `/a/`, `/g/`, `/gallery/`, `/r/`, `/t/` is rejected. */
  lemma ParseIdNeedsMarker(url: string)
    requires forall q :: 0 <= q <= |url| ==>
      !HasAt(url, "/a/", q) && !HasAt(url, "/g/", q) && !HasAt(url, "/gallery/", q) && !HasAt(url, "/r/", q) && !HasAt(url, "/t/", q)
    ensures ParseId(url).Err?
  {
    forall i | 0 <= i < |Rules| ensures Search(Rules[i].pattern, url).None? {
      SearchNeedsMarker(Rules[i].pattern, url);
    }
    ParseIdFails(url);
  }

  /** Rule `k` decides the answer when it captures `id` and every earlier rule fails to match. */
  lemma ParseIdByRule(url: string, k: nat, id: string)
    requires k < |Rules| && Search(Rules[k].pattern, url) == Some(id)
    requires forall i :: 0 <= i < k ==> Search(Rules[i].pattern, url).None?
    ensures ParseId(url) == Ok((Rules[k].kind, id))
  {
    FirstMatchIsFirstRule(Rules, url, k);
  }

  /** Every marker of the table begins and ends with `/` and has no other `/`. */
  lemma RuleMarkersDelimited()
    ensures forall i :: 0 <= i < |Rules| ==> Delimited(Rules[i].pattern.marker)
  {
  }

  /** Only the two subreddit rules share a marker. */
  lemma RuleMarkersDiffer()
    ensures forall i, j :: 0 <= i < j < |Rules| && j != 4 ==> Rules[i].pattern.marker != Rules[j].pattern.marker
  {
    forall i, j | 0 <= i < j < |Rules| && j != 4 ensures Rules[i].pattern.marker != Rules[j].pattern.marker {
      var a, b := Rules[i].pattern.marker, Rules[j].pattern.marker;
      assert |a| != |b| || a[1] != b[1];
    }
  }

  /** `/w/` is `/x/` only when `w` is `x`. */
  lemma SegmentEq(w: string, x: string)
    ensures "/" + w + "/" == "/" + x + "/" <==> w == x
  {
    if "/" + w + "/" == "/" + x + "/" {
      forall k | 0 <= k < |w| ensures w[k] == x[k] {
        assert ("/" + w + "/")[k + 1] == w[k];
        assert ("/" + x + "/")[k + 1] == x[k];
      }
    }
  }

  /**
   * A URL written as a host with no `/`, the marker of one of the album, gallery or tag rules,
   * a word id and a tail with no `/` that does not continue the word resolves to that rule's kind
   * and the id: no other marker occurs in it.
   */
  lemma ParseIdWrittenWord(host: string, k: nat, id: string, post: string)
    requires k == 0 || k == 1 || k == 2 || k == 5
    requires '/' !in host && IsWordRun(id) && '/' !in post && (post == [] || !IsWordChar(post[0]))
    ensures ParseId(host + Rules[k].pattern.marker + id + post) == Ok((Rules[k].kind, id))
  {
    var m := Rules[k].pattern.marker;
    var s := host + m + id + post;
    assert s == host + m + (id + post);
    WordRunNoSlash(id, post);
    RuleMarkersDelimited();
    RuleMarkersDiffer();
    OnlyWrittenMarker(host, m, id + post, m);
    forall i | 0 <= i < k ensures Search(Rules[i].pattern, s).None? {
      OnlyWrittenMarker(host, m, id + post, Rules[i].pattern.marker);
      SearchNeedsMarker(Rules[i].pattern, s);
    }
    MatchWordOf(s, Rules[k].pattern, host, id, post);
    SearchFirstMarker(Rules[k].pattern, s, |host|, id);
    ParseIdByRule(s, k, id);
  }

  /**
   * A bare subreddit URL, `/r/` then a word name at the end or before a final newline, resolves to
   * the name: the composite rule fails for want of a second `/`, and the bare rule captures the name.
   */
  lemma ParseIdBareSubreddit(host: string, name: string, post: string)
    requires '/' !in host && IsWordRun(name) && (post == [] || post == "\n")
    ensures ParseId(host + "/r/" + name + post) == Ok((Subreddit, name))
  {
    var s := host + "/r/" + name + post;
    assert s == host + "/r/" + (name + post);
    WordRunNoSlash(name, post);
    RuleMarkersDelimited();
    RuleMarkersDiffer();
    OnlyWrittenMarker(host, "/r/", name + post, "/r/");
    forall i | 0 <= i < 3 ensures Search(Rules[i].pattern, s).None? {
      OnlyWrittenMarker(host, "/r/", name + post, Rules[i].pattern.marker);
      SearchNeedsMarker(Rules[i].pattern, s);
    }
    PairNoSlashOf(s, "/r/", host, name, post);
    SearchMarkerOnlyAt(WordPair("/r/"), s, |host|);
    MatchWordOf(s, WordAtEnd("/r/"), host, name, post);
    SearchFirstMarker(WordAtEnd("/r/"), s, |host|, name);
    ParseIdByRule(s, 4, name);
  }

  /** In `/r/name/img`, a delimited marker other than `/r/` and `/name/` occurs nowhere. */
  lemma SubredditImageLacks(host: string, name: string, t: string, d: string)
    requires '/' !in host && '/' !in name && '/' !in t
    requires Delimited(d) && d != "/r/" && d != "/" + name + "/"
    ensures forall q: nat :: !HasAt(host + "/r/" + name + "/" + t, d, q)
  {
    var s := host + "/r/" + name + "/" + t;
    var seg := "/" + name + "/";
    assert s == host + "/" + "r" + "/" + name + "/" + t;
    assert s == (host + "/r") + seg + t;
    assert "/r/" == "/" + "r" + "/";
    SegmentDelimited(name);
    forall q: nat | HasAt(s, d, q) ensures false {
      if q < |host| + |name| + 3 {
        TwoSegments(host, "r", name, t, d, q);
      } else {
        MarkerNotAfter(host + "/r", seg, t, d, q);
      }
    }
  }

  /** No album or gallery rule matches `/r/name/img` unless the name is `a`, `g` or `gallery`. */
  lemma SubredditImageNotEarlier(host: string, name: string, t: string)
    requires '/' !in host && '/' !in name && '/' !in t
    requires name != "a" && name != "g" && name != "gallery"
    ensures forall i :: 0 <= i < 3 ==> Search(Rules[i].pattern, host + "/r/" + name + "/" + t).None?
  {
    RuleMarkersDelimited();
    RuleMarkersDiffer();
    assert Rules[0].pattern.marker == "/" + "a" + "/" && Rules[1].pattern.marker == "/" + "g" + "/";
    assert Rules[2].pattern.marker == "/" + "gallery" + "/";
    SegmentEq(name, "a");
    SegmentEq(name, "g");
    SegmentEq(name, "gallery");
    forall i | 0 <= i < 3 ensures Search(Rules[i].pattern, host + "/r/" + name + "/" + t).None? {
      SubredditImageLacks(host, name, t, Rules[i].pattern.marker);
      SearchNeedsMarker(Rules[i].pattern, host + "/r/" + name + "/" + t);
    }
  }

  /**
   * A subreddit URL with an image id, `/r/name/img`, resolves to the composite id `name/img`,
   * provided the name is not itself `a`, `g` or `gallery`, whose `/name/` would be an earlier marker.
   */
  lemma ParseIdSubredditImage(host: string, name: string, img: string, post: string)
    requires '/' !in host && IsWordRun(name) && IsWordRun(img)
    requires '/' !in post && (post == [] || !IsWordChar(post[0]))
    requires name != "a" && name != "g" && name != "gallery"
    ensures ParseId(host + "/r/" + name + "/" + img + post) == Ok((Subreddit, name + "/" + img))
  {
    var s := host + "/r/" + name + "/" + img + post;
    var rest := name + "/" + img + post;
    assert s == host + "/r/" + name + "/" + (img + post);
    assert host + ("/r/" + rest) == s;
    WordRunNoSlash(name, []);
    assert name + [] == name;
    WordRunNoSlash(img, post);
    SubredditImageNotEarlier(host, name, img + post);
    forall q: nat | q < |host| ensures !HasAt(s, "/r/", q) {
      MarkerNotBefore(host, "/r/" + rest, "/r/", q);
    }
    PairOf(s, "/r/", host, name, img, post);
    SearchFirstMarker(WordPair("/r/"), s, |host|, name + "/" + img);
    ParseIdByRule(s, 3, name + "/" + img);
  }

  /**
   * Rules are tried in table order, not by position: in `/t/tag/a/id` the album rule wins over the
   * tag marker further left, provided the tag is not itself `a`.
   */
  lemma ParseIdAlbumAfterTag(host: string, tag: string, id: string, post: string)
    requires '/' !in host && IsWordRun(tag) && tag != "a" && IsWordRun(id)
    requires '/' !in post && (post == [] || !IsWordChar(post[0]))
    ensures ParseId(host + "/t/" + tag + "/a/" + id + post) == Ok((Album, id))
  {
    var pre := host + "/t/" + tag;
    var s := pre + "/a/" + id + post;
    assert s == host + "/" + "t" + "/" + tag + "/" + ("a/" + id + post);
    WordRunNoSlash(tag, []);
    assert tag + [] == tag;
    assert "/a/" == "/" + "a" + "/";
    assert "/t/" == "/" + "t" + "/";
    SegmentEq(tag, "a");
    SegmentEq("t", "a");
    forall q: nat | q < |pre| ensures !HasAt(s, "/a/", q) {
      if HasAt(s, "/a/", q) {
        TwoSegments(host, "t", tag, "a/" + id + post, "/a/", q);
      }
    }
    MatchWordOf(s, Word("/a/"), pre, id, post);
    SearchFirstMarker(Word("/a/"), s, |pre|, id);
    ParseIdByRule(s, 0, id);
  }

  /** A URL whose only `/`s delimit one segment that is no rule's marker raises `UrlIdNotFoundError`. */
  lemma ParseIdUnknownSegment(host: string, seg: string, rest: string)
    requires '/' !in host && '/' !in rest && Delimited(seg)
    requires forall i :: 0 <= i < |Rules| ==> Rules[i].pattern.marker != seg
    ensures ParseId(host + seg + rest) == Err(UrlIdNotFoundError("ID structure not found"))
  {
    var s := host + seg + rest;
    RuleMarkersDelimited();
    forall i | 0 <= i < |Rules| ensures Search(Rules[i].pattern, s).None? {
      OnlyWrittenMarker(host, seg, rest, Rules[i].pattern.marker);
      SearchNeedsMarker(Rules[i].pattern, s);
    }
    ParseIdFails(s);
  }

  /** An album URL gives the album kind and the id after `/a/`. */
  lemma ParseIdAlbumExample(u: string)
    requires u == "imgur.com/a/Xy7"
    ensures ParseId(u) == Ok((Album, "Xy7"))
  {
    assert u == "imgur.com" + Rules[0].pattern.marker + "Xy7" + "";
    ParseIdWrittenWord("imgur.com", 0, "Xy7", "");
  }

  /** A `/gallery/` URL gives the gallery kind: `/g/` does not occur in it. */
  lemma ParseIdGalleryExample(u: string)
    requires u == "imgur.com/gallery/Xy7"
    ensures ParseId(u) == Ok((Gallery, "Xy7"))
  {
    assert u == "imgur.com" + Rules[2].pattern.marker + "Xy7" + "";
    ParseIdWrittenWord("imgur.com", 2, "Xy7", "");
  }

  /** A tag URL gives the tag kind. */
  lemma ParseIdTagExample(u: string)
    requires u == "imgur.com/t/cats"
    ensures ParseId(u) == Ok((Tag, "cats"))
  {
    assert u == "imgur.com" + Rules[5].pattern.marker + "cats" + "";
    ParseIdWrittenWord("imgur.com", 5, "cats", "");
  }

  /** A subreddit URL with an image id gives the composite `sub/img` id. */
  lemma ParseIdSubredditImageExample(u: string)
    requires u == "imgur.com/r/pics/Xy7"
    ensures ParseId(u) == Ok((Subreddit, "pics/Xy7"))
  {
    assert u == "imgur.com" + "/r/" + "pics" + "/" + "Xy7" + "";
    ParseIdSubredditImage("imgur.com", "pics", "Xy7", "");
    assert "pics" + "/" + "Xy7" == "pics/Xy7";
  }

  /** A bare subreddit URL gives the subreddit name, the composite pattern failing first. */
  lemma ParseIdSubredditExample(u: string)
    requires u == "imgur.com/r/pics"
    ensures ParseId(u) == Ok((Subreddit, "pics"))
  {
    assert u == "imgur.com" + "/r/" + "pics" + "";
    ParseIdBareSubreddit("imgur.com", "pics", "");
  }

  /** `$` also matches before a final newline, so the bare form still applies. */
  lemma ParseIdSubredditNewlineExample(u: string)
    requires u == "imgur.com/r/pics\n"
    ensures ParseId(u) == Ok((Subreddit, "pics"))
  {
    assert u == "imgur.com" + "/r/" + "pics" + "\n";
    ParseIdBareSubreddit("imgur.com", "pics", "\n");
  }

  /** Kinds are tried in order: the album rule wins over a tag marker further left. */
  lemma ParseIdAlbumBeforeTagExample(u: string)
    requires u == "imgur.com/t/cats/a/Xy7"
    ensures ParseId(u) == Ok((Album, "Xy7"))
  {
    assert u == "imgur.com" + "/t/" + "cats" + "/a/" + "Xy7" + "";
    ParseIdAlbumAfterTag("imgur.com", "cats", "Xy7", "");
  }

  /** A subreddit named `a` reads as an album: the `/a/` rule is tried before either subreddit rule. */
  lemma ParseIdSubredditNamedAExample(u: string)
    requires u == "imgur.com/r/a/Xy7"
    ensures ParseId(u) == Ok((Album, "Xy7"))
  {
    assert u == "imgur.com" + "/" + "r" + "/" + "a" + "/" + "Xy7";
    assert u == "imgur.com/r" + "/a/" + "Xy7" + "";
    assert "/r/" == "/" + "r" + "/" && "/a/" == "/" + "a" + "/";
    assert "/a/"[1] != "/r/"[1];
    forall q: nat | q < 11 ensures !HasAt(u, "/a/", q) {
      if HasAt(u, "/a/", q) {
        TwoSegments("imgur.com", "r", "a", "Xy7", "/a/", q);
      }
    }
    MatchWordOf(u, Word("/a/"), "imgur.com/r", "Xy7", "");
    SearchFirstMarker(Word("/a/"), u, 11, "Xy7");
    ParseIdByRule(u, 0, "Xy7");
  }

  /** A URL with no known marker raises `UrlIdNotFoundError`. */
  lemma ParseIdUnknownExample(u: string)
    requires u == "imgur.com/user/me"
    ensures ParseId(u) == Err(UrlIdNotFoundError("ID structure not found"))
  {
    assert u == "imgur.com" + "/user/" + "me";
    ParseIdUnknownSegment("imgur.com", "/user/", "me");
  }
}
