/**
 * `imgur.py`: the client of the Imgur REST API. Every getter sends one GET request and passes the
 * JSON answer through the `success` gate; `get_tag` and `get_account_favorites` accumulate pages up
 * to `max_items`; `authorize` extracts the two tokens from the redirect URL the user pastes.
 */
module ImgurApi {
  import opened Wrappers
  import opened Text
  import opened Patterns
  import opened Http

  /** The JSON envelope of every answer: the `success` flag and the `data` payload. */
  datatype ApiResponse<T> = ApiResponse(success: bool, data: T)

  /** Raised by the single-fetch getters when the answer says `'success': False`. */
  datatype ImgurResponseNotSuccess = ImgurResponseNotSuccess(message: string)

  const NotSuccessMessage: string := "Imgur Returned 'success': False"

  /** One image of an album: its `link`, and the `mp4` and `gifv` links when the answer has those keys. */
  datatype ImageData = ImageData(link: string, mp4: Option<string>, gifv: Option<string>)

  /** The album metadata `download_album` reads; `title` is None for a JSON null. */
  datatype AlbumData = AlbumData(id: string, title: Option<string>, images: seq<ImageData>)

  /** The gate of the single-fetch getters: the payload, or `ImgurResponseNotSuccess` when `success` is false. */
  function Checked<T>(resp: ApiResponse<T>): (r: Result<T, ImgurResponseNotSuccess>)
    ensures r.Ok? <==> resp.success
    ensures r.Ok? ==> r.value == resp.data
    ensures r.Err? ==> r.error.message == NotSuccessMessage
  {
    if !resp.success then Err(ImgurResponseNotSuccess(NotSuccessMessage)) else Ok(resp.data)
  }

  // ---------------------------------------------------------------------------------------------
  // Requests

  const ApiBase: string := "https://api.imgur.com/3/"

  function ClientIdAuth(clientId: string): Option<string> {
    Some("Client-ID " + clientId)
  }

  function BearerAuth(accessToken: string): Option<string> {
    Some("Bearer " + accessToken)
  }

  function AccountImagesRequest(accessToken: string, username: string): Request {
    Request(ApiBase + "account/" + username + "/images", BearerAuth(accessToken))
  }

  function GalleryFavoritesRequest(accessToken: string, username: string, sort: string, page: int): Request {
    Request(ApiBase + "account/" + username + "/gallery_favorites/" + IntToString(page) + "/" + sort, BearerAuth(accessToken))
  }

  function AccountFavoritesRequest(accessToken: string, username: string, sort: string, page: int): Request {
    Request(ApiBase + "account/" + username + "/favorites/" + IntToString(page) + "/" + sort, BearerAuth(accessToken))
  }

  function AccountSubmissionsRequest(clientId: string, username: string): Request {
    Request(ApiBase + "account/" + username + "/submissions/", ClientIdAuth(clientId))
  }

  function AlbumRequest(clientId: string, albumHash: string): Request {
    Request(ApiBase + "album/" + albumHash, ClientIdAuth(clientId))
  }

  function GalleryAlbumRequest(clientId: string, galleryHash: string): Request {
    Request(ApiBase + "gallery/" + galleryHash, ClientIdAuth(clientId))
  }

  function SubredditGalleryRequest(clientId: string, subreddit: string, sort: string, window: string, page: int): Request {
    Request(ApiBase + "gallery/r/" + subreddit + "/" + sort + "/" + window + "/" + IntToString(page), ClientIdAuth(clientId))
  }

  function SubredditImageRequest(clientId: string, subreddit: string, imageId: string): Request {
    Request(ApiBase + "gallery/r/" + subreddit + "/" + imageId, ClientIdAuth(clientId))
  }

  function TagRequest(clientId: string, tag: string, sort: string, window: string, page: int): Request {
    Request(ApiBase + "gallery/t/" + tag + "/" + sort + "/" + window + "/" + IntToString(page), ClientIdAuth(clientId))
  }

  // ---------------------------------------------------------------------------------------------
  // Paginated accumulation

  function Min(a: int, b: int): int {
    if a <= b then a else b
  }

  /**
   * The loop of `get_tag` and `get_account_favorites` ends: no request is made when `max_items <= 0`,
   * a failed page stops it, and otherwise the (always identical) page must hold something.
   * A successful empty page makes the source loop forever (see `EmptyPageNoProgress`).
   */
  predicate Terminates<T>(resp: ApiResponse<seq<T>>, maxItems: int) {
    maxItems > 0 && resp.success ==> |resp.data| > 0
  }

  /** One pass of the outer loop over a page: items are appended while fewer than `maxItems` are held. */
  function Round<T>(total: seq<T>, page: seq<T>, maxItems: int): (r: seq<T>)
    requires |total| < maxItems
    ensures |total| <= |r| <= maxItems
    ensures r[..|total|] == total
    ensures |r| > |total| <==> |page| > 0
    ensures |r| == maxItems || |r| == |total| + |page|
  {
    total + page[..Min(|page|, maxItems - |total|)]
  }

  /** `page` written out `k` times, end to end. */
  function Pages<T>(page: seq<T>, k: nat): (r: seq<T>)
    ensures |r| == k * |page|
    ensures forall i :: 0 <= i < |r| ==> r[i] in page
  {
    if k == 0 then [] else Pages(page, k - 1) + page
  }

  /** The number of pages needed to collect `m` items `n` at a time. */
  function RoundsNeeded(n: nat, m: int): nat
    requires n > 0
    decreases m
  {
    if m <= 0 then 0 else 1 + RoundsNeeded(n, m - n)
  }

  /** `RoundsNeeded` is the ceiling of `m / n`: enough pages, and one fewer would not be. */
  lemma {:induction false} RoundsNeededIsCeiling(n: nat, m: int)
    requires n > 0 && m > 0
    ensures (RoundsNeeded(n, m) - 1) * n < m <= RoundsNeeded(n, m) * n
    decreases m
  {
    if m - n > 0 {
      RoundsNeededIsCeiling(n, m - n);
      var k := RoundsNeeded(n, m - n);
      assert RoundsNeeded(n, m) == k + 1;
      assert (k + 1) * n == k * n + n;
      assert (k - 1) * n == k * n - n;
    }
  }

  /** What the accumulation loop returns when every request is answered by `resp`. */
  function Accumulated<T>(resp: ApiResponse<seq<T>>, maxItems: int): (r: seq<T>)
    requires Terminates(resp, maxItems)
    ensures maxItems <= 0 || !resp.success ==> r == []
    ensures maxItems > 0 && resp.success ==> |r| == maxItems
    ensures forall i :: 0 <= i < |r| ==> r[i] in resp.data
  {
    if maxItems <= 0 || !resp.success then []
    else
      RoundsNeededIsCeiling(|resp.data|, maxItems);
      Pages(resp.data, RoundsNeeded(|resp.data|, maxItems))[..maxItems]
  }

  /** How many requests the loop sends when every request is answered by `resp`. */
  function Requests<T>(resp: ApiResponse<seq<T>>, maxItems: int): (r: nat)
    requires Terminates(resp, maxItems)
    ensures maxItems <= 0 ==> r == 0
    ensures maxItems > 0 && !resp.success ==> r == 1
    ensures maxItems > 0 && resp.success ==> (r - 1) * |resp.data| < maxItems <= r * |resp.data|
  {
    if maxItems <= 0 then 0
    else if !resp.success then 1
    else
      RoundsNeededIsCeiling(|resp.data|, maxItems);
      RoundsNeeded(|resp.data|, maxItems)
  }

  /** Pages can equally be counted from the front. */
  lemma {:induction false} PagesFront<T>(page: seq<T>, k: nat)
    ensures Pages(page, k + 1) == page + Pages(page, k)
  {
    if k > 0 {
      PagesFront(page, k - 1);
    }
  }

  /** A round over the page, after `k` whole pages, yields the repetition one page further on, cut at `maxItems`. */
  lemma RoundAfterPages<T>(page: seq<T>, k: nat, maxItems: int)
    requires k * |page| < maxItems
    ensures Round(Pages(page, k), page, maxItems) == Pages(page, k + 1)[..Min((k + 1) * |page|, maxItems)]
  {
    assert (k + 1) * |page| == k * |page| + |page|;
  }

  /** A successful answer with at most one page of room: the first items of the page, in order. */
  lemma AccumulatedFirstPage<T>(resp: ApiResponse<seq<T>>, maxItems: int)
    requires resp.success && 0 < maxItems <= |resp.data|
    ensures Accumulated(resp, maxItems) == resp.data[..maxItems]
  {
    assert RoundsNeeded(|resp.data|, maxItems) == 1;
    assert Pages(resp.data, 1) == resp.data;
  }

  /** Beyond one page, the whole page comes first and the same page is started over. */
  lemma AccumulatedRepeats<T>(resp: ApiResponse<seq<T>>, maxItems: int)
    requires resp.success && 0 < |resp.data| < maxItems
    ensures Accumulated(resp, maxItems) == resp.data + Accumulated(resp, maxItems - |resp.data|)
  {
    var p := resp.data;
    var k := RoundsNeeded(|p|, maxItems - |p|);
    assert RoundsNeeded(|p|, maxItems) == k + 1;
    PagesFront(p, k);
    RoundsNeededIsCeiling(|p|, maxItems - |p|);
    assert (p + Pages(p, k))[..maxItems] == p + Pages(p, k)[..maxItems - |p|];
  }

  /** Four items a page: three requests collect ten items. */
  lemma RoundsExample()
    ensures RoundsNeeded(4, 10) == 3
  {
    assert RoundsNeeded(4, -2) == 0;
    assert RoundsNeeded(4, 2) == 1;
    assert RoundsNeeded(4, 6) == 2;
  }

  /** A successful page of four items and `max_items` 10: the page two and a half times, in three requests. */
  lemma AccumulatedExample(resp: ApiResponse<seq<int>>)
    requires resp == ApiResponse(true, [1, 2, 3, 4])
    ensures Accumulated(resp, 10) == [1, 2, 3, 4, 1, 2, 3, 4, 1, 2]
    ensures Requests(resp, 10) == 3
  {
    assert Accumulated(resp, 2) == [1, 2] by {
      AccumulatedFirstPage(resp, 2);
    }
    assert Accumulated(resp, 6) == [1, 2, 3, 4, 1, 2] by {
      AccumulatedRepeats(resp, 6);
    }
    AccumulatedRepeats(resp, 10);
    RoundsExample();
  }

  /** The result never holds more than `max_items` items. */
  lemma AccumulatedBound<T>(resp: ApiResponse<seq<T>>, maxItems: int)
    requires Terminates(resp, maxItems)
    ensures |Accumulated(resp, maxItems)| <= if maxItems < 0 then 0 else maxItems
  {
  }

  /**
   * The state of the accumulation loop over a successful page after `rounds` requests: the items are
   * the page repeated `rounds` times, cut at `maxItems`, and the rounds still to come make up the total.
   */
  ghost predicate Progress<T>(page: seq<T>, rounds: nat, total: seq<T>, maxItems: int) {
    |page| > 0 && |total| <= maxItems && |total| <= rounds * |page|
    && total == Pages(page, rounds)[..|total|]
    && (|total| < maxItems ==> |total| == rounds * |page|)
    && rounds + RoundsNeeded(|page|, maxItems - |total|) == RoundsNeeded(|page|, maxItems)
  }

  /** One more round keeps the loop state, and adds at least one item. */
  lemma ProgressStep<T>(page: seq<T>, rounds: nat, total: seq<T>, maxItems: int)
    requires Progress(page, rounds, total, maxItems) && |total| < maxItems
    ensures Progress(page, rounds + 1, Round(total, page, maxItems), maxItems)
  {
    assert total == Pages(page, rounds);
    RoundAfterPages(page, rounds, maxItems);
    var rem := maxItems - |total|;
    assert RoundsNeeded(|page|, rem) == 1 + RoundsNeeded(|page|, rem - |page|);
    if |page| > rem {
      assert RoundsNeeded(|page|, rem - |page|) == 0;
      assert RoundsNeeded(|page|, 0) == 0;
    }
  }

  /** When the loop stops on a successful page, it holds exactly what `Accumulated` says. */
  lemma ProgressDone<T>(resp: ApiResponse<seq<T>>, rounds: nat, total: seq<T>, maxItems: int)
    requires resp.success && maxItems > 0 && |total| >= maxItems
    requires Progress(resp.data, rounds, total, maxItems)
    ensures total == Accumulated(resp, maxItems) && rounds == Requests(resp, maxItems)
  {
  }

  /**
   * Why the loop needs `Terminates`: a successful empty page leaves the items unchanged, so
   * `len(total_images) < max_items` stays true and the same request is sent again forever.
   */
  lemma EmptyPageNoProgress<T>(total: seq<T>, maxItems: int)
    requires |total| < maxItems
    ensures Round(total, [], maxItems) == total
  {
    assert Round(total, [], maxItems)[..|total|] == total;
  }

  // ---------------------------------------------------------------------------------------------
  // Authorization

  /** The tokens `authorize` saves to the configuration. */
  datatype Tokens = Tokens(access: string, refresh: string)

  /** `re.search(...)` returned None, so `.group(1)` raised; `name` is the token that was missing. */
  datatype TokenNotFound = TokenNotFound(name: string)

  const AccessMarker: string := "access_token="
  const RefreshMarker: string := "refresh_token="

  /** The URL the user is sent to in order to grant access. */
  function AuthorizeUrl(clientId: string): string {
    "https://api.imgur.com/oauth2/authorize?response_type=token&client_id=" + clientId
  }

  /** The two scans of `authorize` over the pasted redirect URL, the access token first. */
  function ParseRedirect(userInput: string): (r: Result<Tokens, TokenNotFound>)
    ensures r.Ok? ==> IsWordRun(r.value.access) && IsWordRun(r.value.refresh)
    ensures r.Err? ==> r.error.name in {"access_token", "refresh_token"}
    ensures r.Err? ==> (r.error.name == "access_token" <==> Search(Word(AccessMarker), userInput).None?)
  {
    match Search(Word(AccessMarker), userInput)
    case None => Err(TokenNotFound("access_token"))
    case Some(access) =>
      match Search(Word(RefreshMarker), userInput)
      case None => Err(TokenNotFound("refresh_token"))
      case Some(refresh) =>
        SearchShape(Word(AccessMarker), userInput);
        SearchShape(Word(RefreshMarker), userInput);
        Ok(Tokens(access, refresh))
  }

  /** The tokens are found iff each marker is followed by a word character somewhere in the input. */
  lemma ParseRedirectSucceeds(userInput: string)
    ensures ParseRedirect(userInput).Ok? <==>
      (exists q :: 0 <= q <= |userInput| && MatchAt(Word(AccessMarker), userInput, q).Some?)
      && (exists q :: 0 <= q <= |userInput| && MatchAt(Word(RefreshMarker), userInput, q).Some?)
  {
    SearchLeftmost(Word(AccessMarker), userInput);
    SearchLeftmost(Word(RefreshMarker), userInput);
  }

  /**
   * Each token is the maximal word run right after the leftmost occurrence of its marker that is
   * followed by a word character.
   */
  lemma ParseRedirectLeftmost(userInput: string)
    requires ParseRedirect(userInput).Ok?
    ensures exists q :: (0 <= q <= |userInput| && MatchAt(Word(AccessMarker), userInput, q) == Some(ParseRedirect(userInput).value.access)
      && forall q' :: 0 <= q' < q ==> MatchAt(Word(AccessMarker), userInput, q').None?)
    ensures exists q :: (0 <= q <= |userInput| && MatchAt(Word(RefreshMarker), userInput, q) == Some(ParseRedirect(userInput).value.refresh)
      && forall q' :: 0 <= q' < q ==> MatchAt(Word(RefreshMarker), userInput, q').None?)
  {
    SearchLeftmost(Word(AccessMarker), userInput);
    SearchLeftmost(Word(RefreshMarker), userInput);
  }

  lemma ParseRedirectAccessSearchAt1(u: string)
    requires u == "#access_token=ab&refresh_token=cd"
    ensures MatchAt(Word("access_token="), u, 1) == Some("ab")
  {
    MatchWordOf(u, Word("access_token="), "#", "ab", "&refresh_token=cd");
  }

  lemma ParseRedirectAccessSearch(u: string)
    requires u == "#access_token=ab&refresh_token=cd"
    ensures Search(Word("access_token="), u) == Some("ab")
  {
    NoMatchIn(Word("access_token="), u, 0, [0]);
    ParseRedirectAccessSearchAt1(u);
    SearchFinds(Word("access_token="), u, 1, "ab");
  }

  lemma ParseRedirectRefreshSearchAt17(u: string)
    requires u == "#access_token=ab&refresh_token=cd"
    ensures MatchAt(Word("refresh_token="), u, 17) == Some("cd")
  {
    MatchWordOf(u, Word("refresh_token="), "#access_token=ab&", "cd", "");
  }

  lemma ParseRedirectRefreshClear0(u: string)
    requires u == "#access_token=ab&refresh_token=cd"
    ensures forall q :: 0 <= q < 9 ==> MatchAt(Word("refresh_token="), u, q).None?
  {
    NoMatchIn(Word("refresh_token="), u, 0, [0, 0, 0, 0, 0, 0, 0, 0, 0]);
  }

  lemma ParseRedirectRefreshClear9(u: string)
    requires u == "#access_token=ab&refresh_token=cd"
    ensures forall q :: 9 <= q < 17 ==> MatchAt(Word("refresh_token="), u, q).None?
  {
    NoMatchIn(Word("refresh_token="), u, 9, [0, 0, 0, 0, 0, 0, 0, 0]);
  }

  lemma ParseRedirectRefreshSearch(u: string)
    requires u == "#access_token=ab&refresh_token=cd"
    ensures Search(Word("refresh_token="), u) == Some("cd")
  {
    ParseRedirectRefreshClear0(u);
    ParseRedirectRefreshClear9(u);
    ParseRedirectRefreshSearchAt17(u);
    SearchFinds(Word("refresh_token="), u, 17, "cd");
  }

  /** The fragment of an implicit-grant redirect carries both tokens; each is cut at the next `&`. */
  lemma ParseRedirectExample(u: string)
    requires u == "#access_token=ab&refresh_token=cd"
    ensures ParseRedirect(u) == Ok(Tokens("ab", "cd"))
  {
    ParseRedirectAccessSearch(u);
    ParseRedirectRefreshSearch(u);
  }

  // ---------------------------------------------------------------------------------------------
  // The client

  /**
   * The `Imgur` class: the credentials it reads from its configuration, and the server it talks to.
   * Every response is given as a function of the request (`respond`), standing for the upstream.
   */
  class Imgur {
    const clientId: string
    var accessToken: string
    var refreshToken: string
    const server: Server

    constructor (clientId: string, accessToken: string, refreshToken: string, server: Server)
      ensures this.clientId == clientId && this.accessToken == accessToken && this.refreshToken == refreshToken
      ensures this.server == server
    {
      this.clientId := clientId;
      this.accessToken := accessToken;
      this.refreshToken := refreshToken;
      this.server := server;
    }

    /**
     * `authorize` once the user has pasted the redirect URL: both tokens are saved, or, when either
     * is missing, the scan raises before anything is saved.
     */
    method Authorize(userInput: string) returns (r: Result<Tokens, TokenNotFound>)
      modifies this
      ensures r == ParseRedirect(userInput)
      ensures r.Ok? ==> accessToken == r.value.access && refreshToken == r.value.refresh
      ensures r.Err? ==> accessToken == old(accessToken) && refreshToken == old(refreshToken)
    {
      r := ParseRedirect(userInput);
      if r.Ok? {
        accessToken := r.value.access;
        refreshToken := r.value.refresh;
      }
    }

    /** One GET request whose answer passes the `success` gate. */
    method Fetch<T>(req: Request, respond: Request -> ApiResponse<T>) returns (r: Result<T, ImgurResponseNotSuccess>)
      modifies server
      ensures r == Checked(respond(req))
      ensures server.requested == old(server.requested) + [req]
    {
      var resp := server.Send(req, respond);
      if resp.success == false {
        return Err(ImgurResponseNotSuccess(NotSuccessMessage));
      }
      return Ok(resp.data);
    }

    /** `get_account_images`: the `page` argument is accepted but not used in the URL. */
    method GetAccountImages<T>(username: string, respond: Request -> ApiResponse<T>, page: int := 0)
      returns (r: Result<T, ImgurResponseNotSuccess>)
      modifies server
      ensures r == Checked(respond(AccountImagesRequest(accessToken, username)))
      ensures server.requested == old(server.requested) + [AccountImagesRequest(accessToken, username)]
    {
      r := Fetch(AccountImagesRequest(accessToken, username), respond);
    }

    method GetGalleryFavorites<T>(username: string, respond: Request -> ApiResponse<T>, sort: string := "newest", page: int := 0)
      returns (r: Result<T, ImgurResponseNotSuccess>)
      modifies server
      ensures r == Checked(respond(GalleryFavoritesRequest(accessToken, username, sort, page)))
      ensures server.requested == old(server.requested) + [GalleryFavoritesRequest(accessToken, username, sort, page)]
    {
      r := Fetch(GalleryFavoritesRequest(accessToken, username, sort, page), respond);
    }

    method GetAccountSubmissions<T>(username: string, respond: Request -> ApiResponse<T>)
      returns (r: Result<T, ImgurResponseNotSuccess>)
      modifies server
      ensures r == Checked(respond(AccountSubmissionsRequest(clientId, username)))
      ensures server.requested == old(server.requested) + [AccountSubmissionsRequest(clientId, username)]
    {
      r := Fetch(AccountSubmissionsRequest(clientId, username), respond);
    }

    method GetAlbum(albumHash: string, respond: Request -> ApiResponse<AlbumData>)
      returns (r: Result<AlbumData, ImgurResponseNotSuccess>)
      modifies server
      ensures r == Checked(respond(AlbumRequest(clientId, albumHash)))
      ensures server.requested == old(server.requested) + [AlbumRequest(clientId, albumHash)]
    {
      r := Fetch(AlbumRequest(clientId, albumHash), respond);
    }

    method GetGalleryAlbum<T>(galleryHash: string, respond: Request -> ApiResponse<T>)
      returns (r: Result<T, ImgurResponseNotSuccess>)
      modifies server
      ensures r == Checked(respond(GalleryAlbumRequest(clientId, galleryHash)))
      ensures server.requested == old(server.requested) + [GalleryAlbumRequest(clientId, galleryHash)]
    {
      r := Fetch(GalleryAlbumRequest(clientId, galleryHash), respond);
    }

    method GetSubredditGallery<T>(subreddit: string, respond: Request -> ApiResponse<T>,
                                  sort: string := "time", window: string := "day", page: int := 0)
      returns (r: Result<T, ImgurResponseNotSuccess>)
      modifies server
      ensures r == Checked(respond(SubredditGalleryRequest(clientId, subreddit, sort, window, page)))
      ensures server.requested == old(server.requested) + [SubredditGalleryRequest(clientId, subreddit, sort, window, page)]
    {
      r := Fetch(SubredditGalleryRequest(clientId, subreddit, sort, window, page), respond);
    }

    method GetSubredditImage<T>(subreddit: string, imageId: string, respond: Request -> ApiResponse<T>)
      returns (r: Result<T, ImgurResponseNotSuccess>)
      modifies server
      ensures r == Checked(respond(SubredditImageRequest(clientId, subreddit, imageId)))
      ensures server.requested == old(server.requested) + [SubredditImageRequest(clientId, subreddit, imageId)]
    {
      r := Fetch(SubredditImageRequest(clientId, subreddit, imageId), respond);
    }

    /**
     * The loop shared by `get_tag` and `get_account_favorites`: the same request is sent while fewer
     * than `maxItems` items are held; a failed answer stops it, and otherwise the page's items are
     * appended while there is room. The result is the page repeated cyclically, cut at `maxItems`.
     */
    method Accumulate<T>(req: Request, respond: Request -> ApiResponse<seq<T>>, maxItems: int) returns (total: seq<T>)
      requires Terminates(respond(req), maxItems)
      modifies server
      ensures total == Accumulated(respond(req), maxItems)
      ensures server.requested == old(server.requested) + Repeat(req, Requests(respond(req), maxItems))
    {
      ghost var first := respond(req);
      ghost var rounds: nat := 0;
      total := [];
      while |total| < maxItems
        invariant server.requested == old(server.requested) + Repeat(req, rounds)
        invariant !first.success || maxItems <= 0 ==> rounds == 0 && total == []
        invariant first.success && maxItems > 0 ==> Progress(first.data, rounds, total, maxItems)
        decreases maxItems - |total|
      {
        var resp := server.Send(req, respond);
        rounds := rounds + 1;
        if resp.success == false {
          break;
        }
        ProgressStep(first.data, rounds - 1, total, maxItems);
        total := AppendPage(total, resp.data, maxItems);
      }
      if first.success && maxItems > 0 {
        ProgressDone(first, rounds, total, maxItems);
      }
    }

    /** The inner `for` loop: the page's items are appended while fewer than `maxItems` are held. */
    static method AppendPage<T>(total: seq<T>, page: seq<T>, maxItems: int) returns (r: seq<T>)
      requires |total| < maxItems
      ensures r == Round(total, page, maxItems)
    {
      r := total;
      var k := 0;
      while k < |page|
        invariant 0 <= k <= |page|
        invariant r == total + page[..Min(k, maxItems - |total|)]
      {
        if |r| < maxItems {
          r := r + [page[k]];
        }
        k := k + 1;
      }
    }

    /** `get_tag`: images of a tag, up to `maxItems`, all from the one page requested. */
    method GetTag<T>(tag: string, respond: Request -> ApiResponse<seq<T>>,
                     sort: string := "top", window: string := "week", page: int := 0, maxItems: int := 30)
      returns (total: seq<T>)
      requires Terminates(respond(TagRequest(clientId, tag, sort, window, page)), maxItems)
      modifies server
      ensures total == Accumulated(respond(TagRequest(clientId, tag, sort, window, page)), maxItems)
      ensures server.requested == old(server.requested)
        + Repeat(TagRequest(clientId, tag, sort, window, page), Requests(respond(TagRequest(clientId, tag, sort, window, page)), maxItems))
    {
      total := Accumulate(TagRequest(clientId, tag, sort, window, page), respond, maxItems);
    }

    /** `get_account_favorites`: the same accumulation over the account's favorites. */
    method GetAccountFavorites<T>(username: string, respond: Request -> ApiResponse<seq<T>>,
                                  sort: string := "newest", page: int := 0, maxItems: int := 80)
      returns (total: seq<T>)
      requires Terminates(respond(AccountFavoritesRequest(accessToken, username, sort, page)), maxItems)
      modifies server
      ensures total == Accumulated(respond(AccountFavoritesRequest(accessToken, username, sort, page)), maxItems)
      ensures server.requested == old(server.requested)
        + Repeat(AccountFavoritesRequest(accessToken, username, sort, page),
                 Requests(respond(AccountFavoritesRequest(accessToken, username, sort, page)), maxItems))
    {
      total := Accumulate(AccountFavoritesRequest(accessToken, username, sort, page), respond, maxItems);
    }
  }
}
