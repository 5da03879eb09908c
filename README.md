# Imgur-To-Folder core, modelled in Dafny

Imgur-To-Folder downloads Imgur albums, galleries, tags and favourites into folders on disk. This
project models the part of the program that decides what gets fetched and where it lands:

- `Imgur_Downloader.replace_characters`. It deletes the characters a file system rejects from an
  album title and strips the surrounding whitespace (module `Sanitizer`, over `Text`).
- `Imgur_Downloader.parse_id`. It classifies an Imgur URL as album, gallery, subreddit or tag and
  extracts its id, using an ordered table of regular expressions tried with `re.search`. The first
  match wins, and `UrlIdNotFoundError` is raised when nothing matches (modules `UrlResolver` and
  `Patterns`).
- The `Imgur` API client in `imgur.py` (module `ImgurApi`):
  - the `success` gate of every single-fetch getter, which returns the payload or raises
    `ImgurResponseNotSuccess`;
  - the URLs and `Authorization` headers of each request;
  - the accumulation loop of `get_tag` and `get_account_favorites`;
  - the two token scans of `authorize`.
- `get_image_link`, the file name `"<album id> - <position><extension>"`, and the album folder named
  after the sanitised title, falling back to the album id (module `Downloader`).
- `download`, the per-file rule: create the folder if missing, skip an existing file unless
  overwrite is on, write the body on status 200, and do nothing on any other status.
- `download_album`, which fetches the album, creates its folder and downloads every image in order.

Network answers are functions of the request (`respond`), standing in for the Imgur servers. An
`Http.Server` object logs every request sent, so contracts can say exactly which requests were made
and in what order. The disk is a value (`Files.Disk`: directories plus file contents) held by a
mutable `Files.FileSystem` object.

Three behaviours of the code worth knowing:

- The album title falls back to the album id *before* sanitising. A title made only of invalid
  characters therefore gives an empty folder name, and the images land directly in the download
  path (`AlbumFolderEmptyTitle`).
- The accumulation loop never advances its `page`. Every request is the same one, and the result is
  the first page repeated cyclically and cut at `max_items` (`AccumulatedRepeats`,
  `AccumulatedExample`). A successful empty page makes the loop run forever instead of stopping.
- Kinds are tried in table order, so a subreddit named `a`, `g` or `gallery` in `/r/<name>/<image>`
  is read as an album or a gallery (`ParseIdSubredditNamedAExample`; `ParseIdSubredditImage` needs
  the name to be none of the three).

## Model

| member | source | states |
|---|---|---|
| Sanitizer.Sanitize | imgurtofolder/imgur_downloader.py:19-27 | the cleaned name holds none of the twelve invalid characters and has no whitespace at either end |
| Sanitizer.ReplaceCharacters | imgurtofolder/imgur_downloader.py:19-27 | the loop of one `replace(c, '')` per invalid character, followed by `strip()`, returns exactly `Sanitize(word)` |
| Sanitizer.SanitizeIdempotent | imgurtofolder/imgur_downloader.py:19-27 | cleaning a cleaned name changes nothing |
| Sanitizer.SanitizeKeeps | imgurtofolder/imgur_downloader.py:21-26 | every character that is neither invalid nor whitespace keeps its number of occurrences |
| Sanitizer.SanitizeToEmpty | imgurtofolder/imgur_downloader.py:19-27 | a title made only of invalid characters and whitespace becomes the empty name |
| Sanitizer.WithoutPairs | imgurtofolder/imgur_downloader.py:24-25 | deleting the invalid characters from a string that alternates invalid and kept characters leaves the kept ones, in order |
| Sanitizer.SanitizeExample | tests/test_imgur_downloader.py:44-47 | the test's title, with every invalid character between the letters a to l, becomes `abcdefghijkl` |
| Text.Strip | imgurtofolder/imgur_downloader.py:26 | `strip()` leaves no whitespace at either end |
| Text.TrimStart | imgurtofolder/imgur_downloader.py:26 | the result is a suffix of the input; everything dropped is whitespace; the result does not start with whitespace |
| Text.TrimEnd | imgurtofolder/imgur_downloader.py:26 | the result is a prefix of the input; everything dropped is whitespace; the result does not end with whitespace |
| Text.StripNoop | imgurtofolder/imgur_downloader.py:26 | a string with no outer whitespace is left unchanged by `strip()` |
| Text.StripKeepsNonSpace | imgurtofolder/imgur_downloader.py:26 | `strip()` keeps the count of every non-whitespace character |
| Text.Without | imgurtofolder/imgur_downloader.py:25 | deletion leaves no character of the deleted set, and only characters of the input |
| Text.WithoutWithout | imgurtofolder/imgur_downloader.py:24-25 | deleting one set of characters and then another is deleting their union at once |
| Text.WithoutKeeps | imgurtofolder/imgur_downloader.py:25 | `replace(c, '')` keeps the count of every other character |
| Text.WithoutConcat | imgurtofolder/imgur_downloader.py:25 | deleting from a concatenation deletes from each part |
| Text.WithoutNoop | imgurtofolder/imgur_downloader.py:25 | a string holding none of the deleted characters is unchanged |
| Text.RFind | imgurtofolder/imgur_downloader.py:80 | `rfind('.')` gives the index of the last `.`, or -1 when there is none |
| Text.SliceFrom | imgurtofolder/imgur_downloader.py:80 | Python's `s[i:]` is a suffix; a non-negative index drops `i` characters; a negative one keeps the last `-i` characters, or all of them when `-i` exceeds the length |
| Text.NatToString | imgurtofolder/imgur_downloader.py:78-79 | `str(position)` is a non-empty string of decimal digits |
| Text.NatToStringRoundTrip | imgurtofolder/imgur_downloader.py:78-79 | reading the digits back gives the position |
| Text.IntToString | imgurtofolder/imgur.py:196 | `str(page)` is non-empty and starts with `-` exactly when the page is negative |
| Text.LeadingDigitsOf | imgurtofolder/imgur_downloader.py:78-80 | a numeral followed by text that does not start with a digit is exactly the leading digits |
| Patterns.WordRunMaximal | imgurtofolder/imgur_downloader.py:32-35 | greedy `\w+` takes every word character after the start, and stops at a non-word character or the end |
| Patterns.WordAtShape | imgurtofolder/imgur_downloader.py:32-35 | a `\w+` capture is the text at its position, a non-empty run of word characters, and is not followed by another word character |
| Patterns.PairAtShape | imgurtofolder/imgur_downloader.py:34 | `\w+\/\w+` captures two word runs around a single slash |
| Patterns.MatchAtShape | imgurtofolder/imgur_downloader.py:32-35 | a match at a position captures the text right after the marker: a maximal word run, ending at the end or before a final newline for the `$` pattern, or a `sub/img` pair for the composite subreddit pattern |
| Patterns.WordAt | imgurtofolder/imgur_downloader.py:32-35 | the capture of `(\w+)` at a position; what it captures is stated by `WordAtShape` and `WordRunMaximal` |
| Patterns.PairAt | imgurtofolder/imgur_downloader.py:34 | the capture of `(\w+\/\w+)` at a position; what it captures is stated by `PairAtShape` |
| Patterns.MatchAt | imgurtofolder/imgur_downloader.py:32-35 | a pattern matches at a position only where its marker is written there; the capture is stated by `MatchAtShape` |
| Patterns.Search | imgurtofolder/imgur_downloader.py:41 | `re.search(pattern, url).group(2)`, tried at every start position from the left; stated by `SearchLeftmost`, `SearchFinds`, `SearchShape` and `SearchNeedsMarker` |
| Patterns.OnlyWrittenMarker | imgurtofolder/imgur_downloader.py:32-35 | in a URL whose only `/`s are those of one written marker, no other marker occurs anywhere, and that one only where it is written |
| Patterns.TwoSegments | imgurtofolder/imgur_downloader.py:34 | in `<host>/<a>/<b>/...`, a marker starting before the last of those slashes is `/<a>/` or `/<b>/`, at its written place |
| Patterns.SearchLeftmost | imgurtofolder/imgur_downloader.py:41 | `re.search` finds something exactly when some position matches, and answers the leftmost matching position |
| Patterns.SearchFinds | imgurtofolder/imgur_downloader.py:41 | when nothing matches before position p and p matches, the search answers p's capture |
| Patterns.SearchShape | imgurtofolder/imgur_downloader.py:41-43 | `group(2)` is a word run, or a `sub/img` pair for the composite pattern |
| Patterns.SearchNeedsMarker | imgurtofolder/imgur_downloader.py:41 | a URL that does not contain a pattern's marker does not match it |
| Patterns.FirstSomeLeftmost | imgurtofolder/imgur_downloader.py:41 | the scan answers the first successful attempt, and no earlier attempt succeeds |
| UrlResolver.FirstMatch | imgurtofolder/imgur_downloader.py:39-46 | the nested loops with early return over the rule table; a failure is always `UrlIdNotFoundError("ID structure not found")`; which rule answers is stated by `FirstMatchIsFirstRule`, `FirstMatchFails` and `FirstMatchHasRule` |
| UrlResolver.ParseId | imgurtofolder/imgur_downloader.py:29-46 | a failure is always `UrlIdNotFoundError("ID structure not found")`; the answer is stated by `ParseIdFirstMatchWins`, `ParseIdFails`, `ParseIdShape` and the lemmas below |
| UrlResolver.FirstMatchIsFirstRule | imgurtofolder/imgur_downloader.py:39-43 | when rule i is the first to match, the answer is its kind and its capture |
| UrlResolver.FirstMatchFails | imgurtofolder/imgur_downloader.py:39-46 | the scan fails exactly when no rule matches |
| UrlResolver.FirstMatchHasRule | imgurtofolder/imgur_downloader.py:39-43 | every answer comes from the first rule that matches |
| UrlResolver.ParseIdFirstMatchWins | imgurtofolder/imgur_downloader.py:29-46 | `parse_id` answers (kind, id) if and only if the first matching pattern in table order has that kind and captures that id |
| UrlResolver.ParseIdFails | imgurtofolder/imgur_downloader.py:45-46 | `UrlIdNotFoundError` is raised exactly when no pattern of any kind matches |
| UrlResolver.ParseIdShape | imgurtofolder/imgur_downloader.py:31-43 | the id is a non-empty word run, or a `sub/img` pair only for the subreddit kind |
| UrlResolver.PairIdOneSlash | imgurtofolder/imgur_downloader.py:34 | a `sub/img` id holds exactly one slash |
| UrlResolver.CompositeBeforeBare | imgurtofolder/imgur_downloader.py:34 | when no album or gallery pattern matches and `/r/sub/img` does, the composite id is answered |
| UrlResolver.BareOnlyWithoutComposite | imgurtofolder/imgur_downloader.py:34 | a slash-free subreddit id is answered only when the composite pattern fails and the anchored `(\w+)$` one matches |
| UrlResolver.ParseIdNeedsMarker | imgurtofolder/imgur_downloader.py:31-46 | a URL with none of `/a/`, `/g/`, `/gallery/`, `/r/`, `/t/` raises `UrlIdNotFoundError` |
| UrlResolver.ParseIdByRule | imgurtofolder/imgur_downloader.py:39-43 | rule k decides when it captures the id and every earlier rule fails to match |
| UrlResolver.ParseIdWrittenWord | imgurtofolder/imgur_downloader.py:31-43 | `<host>/a/<id>`, `/g/`, `/gallery/` or `/t/` followed by a word id and a slash-free tail that does not continue the word gives that kind and the id, for every host without `/` |
| UrlResolver.ParseIdBareSubreddit | imgurtofolder/imgur_downloader.py:34 | `<host>/r/<name>`, at the end or before a final newline, gives (subreddit, name): the composite pattern fails and the anchored one captures the name |
| UrlResolver.ParseIdSubredditImage | imgurtofolder/imgur_downloader.py:31-43 | `<host>/r/<name>/<image>` gives (subreddit, `name/image`) whenever the name is not `a`, `g` or `gallery` |
| UrlResolver.ParseIdAlbumAfterTag | imgurtofolder/imgur_downloader.py:39-43 | `<host>/t/<tag>/a/<id>` gives (album, id): the album rule comes first in table order, whatever the tag other than `a` |
| UrlResolver.ParseIdUnknownSegment | imgurtofolder/imgur_downloader.py:31-46 | a URL whose only slashes delimit one segment that is no rule's marker raises `UrlIdNotFoundError("ID structure not found")` |
| UrlResolver.ParseIdAlbumExample | imgurtofolder/imgur_downloader.py:32 | `imgur.com/a/Xy7` gives (album, `Xy7`) |
| UrlResolver.ParseIdGalleryExample | imgurtofolder/imgur_downloader.py:33 | `imgur.com/gallery/Xy7` gives (gallery, `Xy7`) |
| UrlResolver.ParseIdSubredditImageExample | imgurtofolder/imgur_downloader.py:34 | `imgur.com/r/pics/Xy7` gives (subreddit, `pics/Xy7`) |
| UrlResolver.ParseIdSubredditExample | imgurtofolder/imgur_downloader.py:34 | `imgur.com/r/pics` gives (subreddit, `pics`) |
| UrlResolver.ParseIdSubredditNewlineExample | imgurtofolder/imgur_downloader.py:34 | `$` also matches before a final newline, so `imgur.com/r/pics` followed by a newline gives (subreddit, `pics`) |
| UrlResolver.ParseIdTagExample | imgurtofolder/imgur_downloader.py:35 | `imgur.com/t/cats` gives (tag, `cats`) |
| UrlResolver.ParseIdAlbumBeforeTagExample | imgurtofolder/imgur_downloader.py:39-43 | kinds are tried in table order, so `imgur.com/t/cats/a/Xy7` is an album |
| UrlResolver.ParseIdSubredditNamedAExample | imgurtofolder/imgur_downloader.py:31-43 | `imgur.com/r/a/Xy7` gives (album, `Xy7`), not a subreddit image |
| UrlResolver.ParseIdUnknownExample | imgurtofolder/imgur_downloader.py:45-46 | `imgur.com/user/me` raises `UrlIdNotFoundError("ID structure not found")` |
| ImgurApi.Checked | imgurtofolder/imgur.py:145-150 | the payload is returned if and only if `success` is true; otherwise `ImgurResponseNotSuccess` is raised with its message |
| ImgurApi.AccountImagesRequest | imgurtofolder/imgur.py:72-75 | `account/<user>/images` with a bearer header; sent once by `Imgur.GetAccountImages` |
| ImgurApi.GalleryFavoritesRequest | imgurtofolder/imgur.py:89-92 | `account/<user>/gallery_favorites/<page>/<sort>` with a bearer header; sent once by `Imgur.GetGalleryFavorites` |
| ImgurApi.AccountFavoritesRequest | imgurtofolder/imgur.py:108-111 | `account/<user>/favorites/<page>/<sort>` with a bearer header; sent `Requests` times by `Imgur.GetAccountFavorites` |
| ImgurApi.AccountSubmissionsRequest | imgurtofolder/imgur.py:128-131 | `account/<user>/submissions/` with a client-id header; sent once by `Imgur.GetAccountSubmissions` |
| ImgurApi.AlbumRequest | imgurtofolder/imgur.py:141-144 | `album/<hash>` with a client-id header; sent once by `Imgur.GetAlbum` |
| ImgurApi.GalleryAlbumRequest | imgurtofolder/imgur.py:154-157 | `gallery/<hash>` with a client-id header; sent once by `Imgur.GetGalleryAlbum` |
| ImgurApi.SubredditGalleryRequest | imgurtofolder/imgur.py:167-170 | `gallery/r/<sub>/<sort>/<window>/<page>` with a client-id header; sent once by `Imgur.GetSubredditGallery` |
| ImgurApi.SubredditImageRequest | imgurtofolder/imgur.py:180-183 | `gallery/r/<sub>/<id>` with a client-id header; sent once by `Imgur.GetSubredditImage` |
| ImgurApi.TagRequest | imgurtofolder/imgur.py:196-199 | `gallery/t/<tag>/<sort>/<window>/<page>` with a client-id header; sent `Requests` times by `Imgur.GetTag` |
| ImgurApi.Round | imgurtofolder/imgur.py:205-207 | one pass over a page only appends, never beyond `max_items`, and adds something exactly when the page is non-empty |
| ImgurApi.Pages | imgurtofolder/imgur.py:195-207 | k passes over the same page hold k times its length, all taken from the page |
| ImgurApi.Requests | imgurtofolder/imgur.py:195-203 | no request when `max_items <= 0`; one when the answer fails; otherwise the least number of pages whose items reach `max_items` |
| ImgurApi.RoundsNeededIsCeiling | imgurtofolder/imgur.py:195 | the number of requests is the ceiling of `max_items` over the page length |
| ImgurApi.Accumulated | imgurtofolder/imgur.py:191-209 | nothing is collected when `max_items <= 0` or the answer fails; otherwise exactly `max_items` items, all from the page |
| ImgurApi.AccumulatedFirstPage | imgurtofolder/imgur.py:191-209 | with room for at most one page, the result is the first `max_items` items of the page, in order |
| ImgurApi.AccumulatedRepeats | imgurtofolder/imgur.py:195-207 | beyond one page, the whole page comes first and collection starts over on the same page |
| ImgurApi.AccumulatedBound | imgurtofolder/imgur.py:195-206 | the result never holds more than `max_items` items |
| ImgurApi.AccumulatedExample | imgurtofolder/imgur.py:191-209 | a successful four-item page and `max_items` 10 give the page two and a half times, in three requests |
| ImgurApi.RoundsExample | imgurtofolder/imgur.py:195 | four items a page need three requests for ten items |
| ImgurApi.ProgressStep | imgurtofolder/imgur.py:195-207 | one more pass keeps the loop state, adding at least one item |
| ImgurApi.ProgressDone | imgurtofolder/imgur.py:195-209 | when the loop stops on a successful page, the items and the request count are those `Accumulated` and `Requests` state |
| ImgurApi.EmptyPageNoProgress | imgurtofolder/imgur.py:195-207 | a successful empty page leaves the items unchanged, so the source loop never ends |
| ImgurApi.ParseRedirect | imgurtofolder/imgur.py:43-44 | both tokens are word runs; a missing token raises, naming `access_token` exactly when the access scan found nothing, and `refresh_token` otherwise |
| ImgurApi.ParseRedirectSucceeds | imgurtofolder/imgur.py:43-44 | both tokens are found if and only if each marker is followed by a word character somewhere |
| ImgurApi.ParseRedirectLeftmost | imgurtofolder/imgur.py:43-44 | each token is taken from the leftmost occurrence of its marker that is followed by a word character |
| ImgurApi.ParseRedirectExample | imgurtofolder/imgur.py:43-44 | `#access_token=ab&refresh_token=cd` gives the tokens `ab` and `cd`, each cut at the `&` |
| ImgurApi.AuthorizeUrl | imgurtofolder/imgur.py:25-27 | the authorization page the user is sent to, carrying the client id; the scan of the pasted answer is stated by `ParseRedirect` and `Imgur.Authorize` |
| ImgurApi.Imgur.constructor | imgurtofolder/imgur.py:14-16 | the client holds the credentials of its configuration and talks to the given server |
| ImgurApi.Imgur.Authorize | imgurtofolder/imgur.py:40-46 | the result is the scan of the pasted URL; on success both tokens are saved, and on failure neither is |
| ImgurApi.Imgur.Fetch | imgurtofolder/imgur.py:145-150 | one request is sent and logged, and its answer passes the `success` gate |
| ImgurApi.Imgur.GetAccountImages | imgurtofolder/imgur.py:70-85 | one bearer-authorised request to `account/<user>/images`, gated on `success` |
| ImgurApi.Imgur.GetGalleryFavorites | imgurtofolder/imgur.py:87-102 | one bearer-authorised request to `account/<user>/gallery_favorites/<page>/<sort>`, gated on `success` |
| ImgurApi.Imgur.GetAccountSubmissions | imgurtofolder/imgur.py:126-137 | one client-id request to `account/<user>/submissions/`, gated on `success` |
| ImgurApi.Imgur.GetAlbum | imgurtofolder/imgur.py:139-150 | one client-id request to `album/<hash>`, gated on `success` |
| ImgurApi.Imgur.GetGalleryAlbum | imgurtofolder/imgur.py:152-163 | one client-id request to `gallery/<hash>`, gated on `success` |
| ImgurApi.Imgur.GetSubredditGallery | imgurtofolder/imgur.py:165-176 | one client-id request to `gallery/r/<sub>/<sort>/<window>/<page>`, gated on `success` |
| ImgurApi.Imgur.GetSubredditImage | imgurtofolder/imgur.py:178-189 | one client-id request to `gallery/r/<sub>/<id>`, gated on `success` |
| ImgurApi.Imgur.Accumulate | imgurtofolder/imgur.py:193-209 | the loop returns `Accumulated` of the answer and sends the same request `Requests` times |
| ImgurApi.Imgur.AppendPage | imgurtofolder/imgur.py:205-207 | the inner loop appends the page's items while fewer than `max_items` are held, which is one `Round` |
| ImgurApi.Imgur.GetTag | imgurtofolder/imgur.py:191-209 | `get_tag` returns `Accumulated` of the answer to the one tag request, sent `Requests` times |
| ImgurApi.Imgur.GetAccountFavorites | imgurtofolder/imgur.py:104-124 | `get_account_favorites` returns `Accumulated` of the answer to the one favourites request, sent `Requests` times |
| Http.Repeat | imgurtofolder/imgur.py:195-200 | the log of the loop's requests is n copies of the same request |
| Http.Server.Send | imgurtofolder/imgur.py:145 | the answer is the upstream's answer to the request, and the request is appended to the log |
| Files.Join | imgurtofolder/imgur_downloader.py:68 | an absolute second part replaces the first; otherwise the result starts with the first part and ends with the second, with one `/` between them when the first part does not end in one |
| Files.MakeDirs | imgurtofolder/imgur_downloader.py:73 | the directory and its ancestors exist afterwards; no other directory is created and no file changes |
| Files.EnsureDir | imgurtofolder/imgur_downloader.py:71-73 | the path exists afterwards; an existing path leaves the disk unchanged |
| Files.EnsureDirIdempotent | imgurtofolder/imgur_downloader.py:106-109 | checking and creating the folder twice is doing it once |
| Files.WriteFile | imgurtofolder/imgur_downloader.py:121-123 | the file holds the body afterwards; no other file and no directory changes |
| Files.FileSystem.PathExists | imgurtofolder/imgur_downloader.py:71 | `os.path.exists` holds exactly for an existing directory or file |
| Files.FileSystem.MakeDirectories | imgurtofolder/imgur_downloader.py:73 | the disk becomes `MakeDirs` of the old disk |
| Files.FileSystem.Write | imgurtofolder/imgur_downloader.py:121-123 | the disk becomes `WriteFile` of the old disk |
| Downloader.GetImageLink | imgurtofolder/imgur_downloader.py:48-54 | the `mp4` link when present, else the `gifv` link when present, else `link` |
| Downloader.Extension | imgurtofolder/imgur_downloader.py:80 | with a `.`, the suffix from the last `.`, with no further `.`; without one, the last character (slice from -1); empty for an empty link |
| Downloader.FileName | imgurtofolder/imgur_downloader.py:78-80 | `"<album id> - <position><extension>"`; that the position reads back and names differ is stated by `FileNamePosition` and `FileNamesDistinct` |
| Downloader.FileNamePosition | imgurtofolder/imgur_downloader.py:78-80 | the position can be read back from the file name when the link has a `.` |
| Downloader.FileNamesDistinct | imgurtofolder/imgur_downloader.py:76-80 | images at different positions get different file names when their links have a `.` |
| Downloader.AlbumTitle | imgurtofolder/imgur_downloader.py:66 | the title when present and non-empty, else the album id; its use is stated by `AlbumFolder` and `AlbumFolderEmptyTitle` |
| Downloader.AlbumFolder | imgurtofolder/imgur_downloader.py:66-68 | the folder is the download path joined with the sanitised title, or with the id when the title is empty or null, and it ends with that name |
| Downloader.AlbumFolderEmptyTitle | imgurtofolder/imgur_downloader.py:66-68 | a non-empty title made only of invalid characters and whitespace does not fall back to the id: the folder is the download path joined with the empty name |
| Downloader.FetchRequest | imgurtofolder/imgur_downloader.py:116 | the plain GET of the image link, with no `Authorization` header; `ImgurDownloader.Download` sends it exactly when the file is not skipped |
| Downloader.ItemName | imgurtofolder/imgur_downloader.py:77-80 | the file name of the image at a position, from its link |
| Downloader.ImageJob | imgurtofolder/imgur_downloader.py:77-82 | the file name and link `download` is called with for one image |
| Downloader.AlbumJobs | imgurtofolder/imgur_downloader.py:76-82 | one call per image, in order, at positions 1, 2, ...; stated by `AlbumJobPosition` and `AlbumJobsDistinct` |
| Downloader.AlbumJobPosition | imgurtofolder/imgur_downloader.py:76-80 | the i-th call fetches the i-th image's link, and its file name gives back position i + 1 when the link has a `.` |
| Downloader.AlbumJobsDistinct | imgurtofolder/imgur_downloader.py:76-80 | two images of an album whose links have a `.` are saved under different names |
| Downloader.DownloadEffect | imgurtofolder/imgur_downloader.py:104-127 | the folder exists afterwards and no file disappears; the file is skipped if and only if overwrite is off and it exists; a skip or a non-200 answer changes nothing but the folder; a save writes the body under `path/filename` |
| Downloader.DownloadOnlyTouchesTarget | imgurtofolder/imgur_downloader.py:104-127 | no file other than `path/filename` changes |
| Downloader.DownloadTwice | imgurtofolder/imgur_downloader.py:111-114 | without overwrite, downloading again after a save or a skip is a skip that changes nothing |
| Downloader.OverwriteReplaces | imgurtofolder/imgur_downloader.py:116-123 | with overwrite on, a 200 answer saves and replaces the file's content |
| Downloader.SkipExisting | imgurtofolder/imgur_downloader.py:111-114 | an existing file in an existing folder without overwrite is skipped and nothing changes |
| Downloader.Step | imgurtofolder/imgur_downloader.py:82 | one more `download` adds one outcome, loses no directory or file, and leaves the folder existing and the file too unless it failed |
| Downloader.RunDownloads | imgurtofolder/imgur_downloader.py:76-82 | one outcome per image; no directory or file disappears |
| Downloader.RunSnoc | imgurtofolder/imgur_downloader.py:76-82 | the run over one more image is one more step |
| Downloader.RunPrefix | imgurtofolder/imgur_downloader.py:76-82 | the first k outcomes are those of the first k downloads: later images do not change earlier outcomes |
| Downloader.RunTargetsExist | imgurtofolder/imgur_downloader.py:76-82 | after the album loop, the file of every download that did not fail exists |
| Downloader.RunKeepsFolder | imgurtofolder/imgur_downloader.py:106-109 | the folder exists after the loop when it existed before or at least one image was downloaded |
| Downloader.StepSkips | imgurtofolder/imgur_downloader.py:111-114 | a step whose file exists is a skip that changes neither the disk nor the request log |
| Downloader.RerunSkipsAll | imgurtofolder/imgur_downloader.py:76-82 | downloading an album again without overwrite, after a first run where nothing failed, skips every image, fetches nothing and changes nothing |
| Downloader.ImgurDownloader.constructor | imgurtofolder/imgur_downloader.py:15-17 | the downloader holds its client, the configuration's download path and overwrite flag, and `max_favorites` |
| Downloader.ImgurDownloader.Download | imgurtofolder/imgur_downloader.py:104-127 | the disk and outcome are `DownloadEffect`; the URL is requested exactly when the file is not skipped |
| Downloader.ImgurDownloader.DownloadImages | imgurtofolder/imgur_downloader.py:76-82 | the loop leaves the disk, outcomes and request log that `RunDownloads` gives for the album's images at positions 1, 2, ... |
| Downloader.ImgurDownloader.DownloadAlbum | imgurtofolder/imgur_downloader.py:61-82 | a failed album answer raises `ImgurResponseNotSuccess` with the disk untouched after one request; otherwise the album folder is ensured and every image is downloaded into it in order |

## Left out

- Network I/O: every answer is a function of the request (`respond`). Timeouts, connection errors,
  malformed JSON and upstream answers that change between two identical requests are not modelled.
- Accumulate: requires `Terminates` (a successful page with `max_items > 0` is non-empty), because
  the source loops forever on a successful empty page and the model must terminate.
  `EmptyPageNoProgress` states the non-progress instead.
- Imgur.GetTag: has the same `Terminates` precondition as `Accumulate`, for the same reason.
- Imgur.GetAccountFavorites: has the same `Terminates` precondition as `Accumulate`, for the same
  reason.
- The `'data' in response` guard inside the accumulation loop is always true in the model, because
  an answer always carries a payload.
- `success` is a boolean. An answer without a `success` key raises `KeyError` at `response['success']`
  (imgurtofolder/imgur.py:82, 99, 117, 134, 147, 160, 173, 186, 202), and a non-boolean `success`
  other than `False` passes the `is False` test; neither kind of answer is modelled.
- `generate_access_token`, the `webbrowser` call and the `input()` prompt of `authorize`: the pasted
  URL is a parameter of `Authorize`, and `AuthorizeUrl` builds the page the user is sent to.
- Configuration persistence (`set_access_token`, `save_configuration`, `get_download_path`,
  `get_overwrite`): `configuration.py` is not part of this model. The tokens are fields of `Imgur`,
  and the download path and overwrite flag are fields of `ImgurDownloader`.
- `set_configuration`, and the stub methods `download_tag`, `download_gallery`,
  `download_subreddit`, `download_subreddit_gallery`, `download_favorites` and
  `download_account_images`, which do nothing.
- The `Image` and `Album` attribute-bag classes. Images and albums are the records `ImageData` and
  `AlbumData`, holding only the keys the core reads.
- Logging, `sleep(.1)`, and the file size computed from `content-length` (floating point, log only).
- Streaming: a fetched body is written in one step, and `decode_content` is not modelled.
- Operating-system errors and path normalisation: `makedirs` and writing never fail, and `exists`
  is true for a directory or a file of that name.
- Python's `\w` is Unicode-aware; the model uses the ASCII word characters (letters, digits, `_`).
- Downloader.ImgurDownloader.DownloadImages: computes every image's file name and link before its
  loop rather than inside it. This is the same result, because `get_image_link` and the name have no
  side effects.
- Downloader.FileNamesDistinct: states distinctness only for links that contain a `.`. Without one,
  the extension is the link's last character and two names can collide.
