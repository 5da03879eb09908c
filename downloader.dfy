/**
 * `Imgur_Downloader` in `imgur_downloader.py`: choosing each image's link, naming the album folder
 * and the image files, the per-file download rule (create the folder, skip or fetch, write on 200)
 * and the album loop that applies it to every image in order.
 */
module Downloader {
  import opened Wrappers
  import opened Text
  import opened Sanitizer
  import opened Http
  import opened ImgurApi
  import opened Files

  // ---------------------------------------------------------------------------------------------
  // Links and names

  /** `get_image_link`: the `mp4` link when the image has one, else the `gifv` link, else `link`. */
  function GetImageLink(image: ImageData): (r: string)
    ensures image.mp4.Some? ==> r == image.mp4.value
    ensures image.mp4.None? && image.gifv.Some? ==> r == image.gifv.value
    ensures image.mp4.None? && image.gifv.None? ==> r == image.link
  {
    match image.mp4
    case Some(v) => v
    case None =>
      match image.gifv
      case Some(v) => v
      case None => image.link
  }

  /**
   * `link[link.rfind('.'):]`: from the last `.` to the end. With no `.`, `rfind` gives -1 and the
   * slice is the link's last character (nothing for an empty link).
   */
  function Extension(link: string): (r: string)
    ensures '.' in link ==> 0 < |r| <= |link| && r[0] == '.' && '.' !in r[1..] && link == link[..|link| - |r|] + r
    ensures '.' !in link && link != [] ==> r == [link[|link| - 1]]
    ensures link == [] ==> r == []
  {
    var i := RFind(link, '.');
    assert '.' in link ==> i >= 0 by {
      if '.' in link {
        var k :| 0 <= k < |link| && link[k] == '.';
      }
    }
    var r := SliceFrom(link, i);
    assert r == link[|link| - |r|..];
    assert i >= 0 ==> forall k :: 0 <= k < |r| - 1 ==> r[1..][k] == link[i + 1 + k];
    r
  }

  /** `"{} - {}{}".format(album_id, position, extension)`. */
  function FileName(albumId: string, position: nat, link: string): string {
    albumId + " - " + NatToString(position) + Extension(link)
  }

  /** Reads the position back out of a file name of album `albumId`: the digits after `"<albumId> - "`. */
  function PositionOf(albumId: string, name: string): Option<nat> {
    var prefix := albumId + " - ";
    if |name| < |prefix| || name[..|prefix|] != prefix then None
    else
      var rest := name[|prefix|..];
      var n := LeadingDigits(rest);
      if n == 0 then None else Some(DigitsValue(rest[..n]))
  }

  /** A file name gives back the position it was made from, whenever the link has a `.`. */
  lemma FileNamePosition(albumId: string, position: nat, link: string)
    requires '.' in link
    ensures PositionOf(albumId, FileName(albumId, position, link)) == Some(position)
  {
    var prefix := albumId + " - ";
    var digits := NatToString(position);
    var ext := Extension(link);
    var name := FileName(albumId, position, link);
    assert name == prefix + (digits + ext);
    assert name[..|prefix|] == prefix;
    var rest := name[|prefix|..];
    assert rest == digits + ext;
    LeadingDigitsOf(digits, ext);
    assert rest[..|digits|] == digits;
    NatToStringRoundTrip(position);
  }

  /** Images at different positions get different file names, whenever their links have a `.`. */
  lemma FileNamesDistinct(albumId: string, p1: nat, link1: string, p2: nat, link2: string)
    requires '.' in link1 && '.' in link2 && p1 != p2
    ensures FileName(albumId, p1, link1) != FileName(albumId, p2, link2)
  {
    FileNamePosition(albumId, p1, link1);
    FileNamePosition(albumId, p2, link2);
  }

  /** `album['title'] if album['title'] else album['id']`: an absent or empty title falls back to the id. */
  function AlbumTitle(album: AlbumData): string {
    match album.title
    case Some(t) => if t != [] then t else album.id
    case None => album.id
  }

  /** The album's folder: the download path joined with the sanitised title (or id). */
  function AlbumFolder(downloadPath: string, album: AlbumData): (r: string)
    ensures r == Join(downloadPath, Sanitize(AlbumTitle(album)))
    ensures r[|r| - |Sanitize(AlbumTitle(album))|..] == Sanitize(AlbumTitle(album))
  {
    var name := Sanitize(AlbumTitle(album));
    assert |name| > 0 ==> name[0] != '/' by {
      if |name| > 0 {
        assert !IsInvalid(name[0]);
      }
    }
    Join(downloadPath, name)
  }

  /**
   * The fallback to the id happens before sanitising: a non-empty title made only of forbidden
   * characters and whitespace gives an empty folder name, not the id.
   */
  lemma AlbumFolderEmptyTitle(downloadPath: string, album: AlbumData)
    requires album.title.Some? && album.title.value != []
    requires forall k :: 0 <= k < |album.title.value| ==> IsInvalid(album.title.value[k]) || IsSpace(album.title.value[k])
    ensures AlbumFolder(downloadPath, album) == Join(downloadPath, "")
  {
    SanitizeToEmpty(album.title.value);
  }

  // ---------------------------------------------------------------------------------------------
  // The download rule

  /** What `requests.get` returns that the model uses: the status code and the body. */
  datatype FetchResponse = FetchResponse(status: int, body: seq<bv8>)

  /** What `download` did, as its log lines tell: skipped, saved, or failed with a status code. */
  datatype Outcome = Skipped | Saved | Failed(status: int)

  /** The request `download` sends for `url`: a plain GET with no `Authorization` header. */
  function FetchRequest(url: string): Request {
    Request(url, None)
  }

  /**
   * `download(filename, url, path)` on disk `d`, where `resp` is what fetching `url` would return:
   * the folder is created when missing; an existing file is kept when `overwrite` is off; otherwise
   * the body is written on status 200 and nothing is written on any other status.
   */
  function DownloadEffect(d: Disk, overwrite: bool, filename: string, path: string, resp: FetchResponse): (r: (Disk, Outcome))
    ensures Exists(r.0, path)
    ensures r.0.dirs == EnsureDir(d, path).dirs
    ensures d.files.Keys <= r.0.files.Keys
    ensures r.1 == Skipped <==> !overwrite && Exists(EnsureDir(d, path), Join(path, filename))
    ensures r.1 == Skipped ==> r.0 == EnsureDir(d, path)
    ensures r.1 == Saved ==> resp.status == 200 && Join(path, filename) in r.0.files && r.0.files[Join(path, filename)] == resp.body
    ensures r.1.Failed? ==> r.1.status == resp.status != 200 && r.0 == EnsureDir(d, path)
  {
    var d1 := EnsureDir(d, path);
    var target := Join(path, filename);
    if !overwrite && Exists(d1, target) then (d1, Skipped)
    else if resp.status == 200 then (WriteFile(d1, target, resp.body), Saved)
    else (d1, Failed(resp.status))
  }

  /** `download` changes no file other than `path/filename`. */
  lemma DownloadOnlyTouchesTarget(d: Disk, overwrite: bool, filename: string, path: string, resp: FetchResponse, p: string)
    requires p != Join(path, filename)
    ensures var r := DownloadEffect(d, overwrite, filename, path, resp).0;
      (p in r.files <==> p in d.files) && (p in d.files ==> r.files[p] == d.files[p])
  {
  }

  /** Without overwrite, downloading the same file again after it was saved or skipped changes nothing and fetches nothing. */
  lemma DownloadTwice(d: Disk, filename: string, path: string, first: FetchResponse, second: FetchResponse)
    requires DownloadEffect(d, false, filename, path, first).1 != Failed(first.status)
    ensures var d1 := DownloadEffect(d, false, filename, path, first).0;
      DownloadEffect(d1, false, filename, path, second) == (d1, Skipped)
  {
  }

  /** With overwrite on, a 200 answer replaces whatever the file held. */
  lemma OverwriteReplaces(d: Disk, filename: string, path: string, resp: FetchResponse)
    requires resp.status == 200
    ensures DownloadEffect(d, true, filename, path, resp).1 == Saved
    ensures DownloadEffect(d, true, filename, path, resp).0.files[Join(path, filename)] == resp.body
  {
  }

  // ---------------------------------------------------------------------------------------------
  // The album loop

  /** One call of `download` the album loop makes: the file name and the URL to fetch. */
  datatype Job = Job(filename: string, url: string)

  /** The file name of the image at `position` (counting from 1). */
  function ItemName(albumId: string, position: nat, image: ImageData): string {
    FileName(albumId, position, GetImageLink(image))
  }

  /** The call `download_album` makes for the image at `position`: its file name and its link. */
  function ImageJob(albumId: string, position: nat, image: ImageData): Job {
    Job(ItemName(albumId, position, image), GetImageLink(image))
  }

  /** The calls `download_album` makes, one per image in order, at positions 1, 2, .... */
  function AlbumJobs(albumId: string, images: seq<ImageData>): seq<Job> {
    seq(|images|, i requires 0 <= i < |images| => ImageJob(albumId, i + 1, images[i]))
  }

  /**
   * The `i`-th call of the album loop fetches the `i`-th image's link, and its file name gives back
   * the position `i + 1` whenever that link has a `.`.
   */
  lemma AlbumJobPosition(albumId: string, images: seq<ImageData>, i: nat)
    requires i < |images|
    ensures AlbumJobs(albumId, images)[i].url == GetImageLink(images[i])
    ensures '.' in GetImageLink(images[i]) ==> PositionOf(albumId, AlbumJobs(albumId, images)[i].filename) == Some(i + 1)
  {
    if '.' in GetImageLink(images[i]) {
      FileNamePosition(albumId, i + 1, GetImageLink(images[i]));
    }
  }

  /** Two images of an album whose links have a `.` are saved under different names. */
  lemma AlbumJobsDistinct(albumId: string, images: seq<ImageData>, i: nat, j: nat)
    requires i < j < |images|
    requires '.' in GetImageLink(images[i]) && '.' in GetImageLink(images[j])
    ensures AlbumJobs(albumId, images)[i].filename != AlbumJobs(albumId, images)[j].filename
  {
    AlbumJobPosition(albumId, images, i);
    AlbumJobPosition(albumId, images, j);
  }

  /** The disk, the outcomes and the fetch requests after a sequence of downloads. */
  datatype Run = Run(disk: Disk, outcomes: seq<Outcome>, fetched: seq<Request>)

  /** One iteration of the album loop: `download` for `job`, after the run `prev`. */
  function Step(prev: Run, overwrite: bool, folder: string, job: Job, respond: Request -> FetchResponse): (r: Run)
    ensures |r.outcomes| == |prev.outcomes| + 1 && r.outcomes[..|prev.outcomes|] == prev.outcomes
    ensures prev.disk.dirs <= r.disk.dirs && prev.disk.files.Keys <= r.disk.files.Keys
    ensures Exists(r.disk, folder)
    ensures !r.outcomes[|prev.outcomes|].Failed? ==> Exists(r.disk, Join(folder, job.filename))
  {
    var req := FetchRequest(job.url);
    var step := DownloadEffect(prev.disk, overwrite, job.filename, folder, respond(req));
    Run(step.0, prev.outcomes + [step.1], prev.fetched + if step.1 == Skipped then [] else [req])
  }

  /** `download` applied to each job in order, into `folder`. */
  function RunDownloads(d: Disk, overwrite: bool, folder: string, jobs: seq<Job>, respond: Request -> FetchResponse): (r: Run)
    ensures |r.outcomes| == |jobs|
    ensures d.dirs <= r.disk.dirs && d.files.Keys <= r.disk.files.Keys
  {
    if jobs == [] then Run(d, [], [])
    else Step(RunDownloads(d, overwrite, folder, jobs[..|jobs| - 1], respond), overwrite, folder, jobs[|jobs| - 1], respond)
  }

  /** The run over one more job is one more step. */
  lemma RunSnoc(d: Disk, overwrite: bool, folder: string, jobs: seq<Job>, respond: Request -> FetchResponse, i: nat)
    requires i < |jobs|
    ensures RunDownloads(d, overwrite, folder, jobs[..i + 1], respond)
         == Step(RunDownloads(d, overwrite, folder, jobs[..i], respond), overwrite, folder, jobs[i], respond)
  {
    assert jobs[..i + 1][..i] == jobs[..i];
  }

  /** The effect of the `i`-th download, told apart: the disk it leaves, one more outcome, and its fetch if any. */
  lemma RunStep(d: Disk, overwrite: bool, folder: string, jobs: seq<Job>, respond: Request -> FetchResponse, i: nat,
                disk: Disk, outcome: Outcome)
    requires i < |jobs|
    requires (disk, outcome) == DownloadEffect(RunDownloads(d, overwrite, folder, jobs[..i], respond).disk, overwrite,
                                               jobs[i].filename, folder, respond(FetchRequest(jobs[i].url)))
    ensures var prev, next := RunDownloads(d, overwrite, folder, jobs[..i], respond), RunDownloads(d, overwrite, folder, jobs[..i + 1], respond);
      next.disk == disk && next.outcomes == prev.outcomes + [outcome]
      && next.fetched == prev.fetched + if outcome == Skipped then [] else [FetchRequest(jobs[i].url)]
  {
    RunSnoc(d, overwrite, folder, jobs, respond, i);
  }

  /** The first `k` outcomes are those of the first `k` downloads. */
  lemma {:induction false} RunPrefix(d: Disk, overwrite: bool, folder: string, jobs: seq<Job>,
                                     respond: Request -> FetchResponse, k: nat)
    requires k <= |jobs|
    ensures RunDownloads(d, overwrite, folder, jobs, respond).outcomes[..k]
         == RunDownloads(d, overwrite, folder, jobs[..k], respond).outcomes
    decreases |jobs|
  {
    if k < |jobs| {
      var init := jobs[..|jobs| - 1];
      RunPrefix(d, overwrite, folder, init, respond, k);
      assert init[..k] == jobs[..k];
    } else {
      assert jobs[..k] == jobs;
    }
  }

  /** Every download that did not fail leaves its file (or a directory of that name) in place. */
  lemma {:induction false} RunTargetsExist(d: Disk, overwrite: bool, folder: string, jobs: seq<Job>,
                                            respond: Request -> FetchResponse, i: nat)
    requires i < |jobs|
    requires !RunDownloads(d, overwrite, folder, jobs, respond).outcomes[i].Failed?
    ensures Exists(RunDownloads(d, overwrite, folder, jobs, respond).disk, Join(folder, jobs[i].filename))
    decreases |jobs|
  {
    var init := jobs[..|jobs| - 1];
    var prev := RunDownloads(d, overwrite, folder, init, respond);
    var r := RunDownloads(d, overwrite, folder, jobs, respond);
    assert r == Step(prev, overwrite, folder, jobs[|jobs| - 1], respond);
    if i < |jobs| - 1 {
      assert r.outcomes[i] == prev.outcomes[i];
      assert init[i] == jobs[i];
      RunTargetsExist(d, overwrite, folder, init, respond, i);
    }
  }

  /** The folder exists after at least one download, and a run keeps an existing folder. */
  lemma RunKeepsFolder(d: Disk, overwrite: bool, folder: string, jobs: seq<Job>, respond: Request -> FetchResponse)
    requires Exists(d, folder) || jobs != []
    ensures Exists(RunDownloads(d, overwrite, folder, jobs, respond).disk, folder)
  {
  }

  /** Downloading a file that already exists, without overwrite and into an existing folder, skips it. */
  lemma SkipExisting(d: Disk, filename: string, folder: string, resp: FetchResponse)
    requires Exists(d, folder) && Exists(d, Join(folder, filename))
    ensures DownloadEffect(d, false, filename, folder, resp) == (d, Skipped)
  {
  }

  /** A step whose file already exists, in an existing folder and without overwrite, is a skip that changes nothing. */
  lemma StepSkips(prev: Run, folder: string, job: Job, respond: Request -> FetchResponse)
    requires Exists(prev.disk, folder) && Exists(prev.disk, Join(folder, job.filename))
    ensures Step(prev, false, folder, job, respond) == Run(prev.disk, prev.outcomes + [Skipped], prev.fetched)
  {
    SkipExisting(prev.disk, job.filename, folder, respond(FetchRequest(job.url)));
    assert prev.fetched + [] == prev.fetched;
  }

  /** `k` skips. */
  function Skips(k: nat): (r: seq<Outcome>)
    ensures |r| == k && forall i :: 0 <= i < k ==> r[i] == Skipped
  {
    if k == 0 then [] else Skips(k - 1) + [Skipped]
  }

  /**
   * Running the same downloads again without overwrite, once none failed the first time: every one
   * is skipped, nothing is fetched and the disk is left as it was.
   */
  lemma {:induction false} RerunSkipsAll(d: Disk, folder: string, jobs: seq<Job>,
                                         respond: Request -> FetchResponse, again: Request -> FetchResponse, k: nat)
    requires Exists(d, folder)
    requires k <= |jobs|
    requires forall i :: 0 <= i < |jobs| ==> !RunDownloads(d, false, folder, jobs, respond).outcomes[i].Failed?
    ensures var first := RunDownloads(d, false, folder, jobs, respond);
      RunDownloads(first.disk, false, folder, jobs[..k], again) == Run(first.disk, Skips(k), [])
    decreases k
  {
    if k > 0 {
      var first := RunDownloads(d, false, folder, jobs, respond);
      RerunSkipsAll(d, folder, jobs, respond, again, k - 1);
      assert Exists(first.disk, folder) by {
        RunKeepsFolder(d, false, folder, jobs, respond);
      }
      assert Exists(first.disk, Join(folder, jobs[k - 1].filename)) by {
        RunTargetsExist(d, false, folder, jobs, respond, k - 1);
      }
      RunSnoc(first.disk, false, folder, jobs, again, k - 1);
      StepSkips(RunDownloads(first.disk, false, folder, jobs[..k - 1], again), folder, jobs[k - 1], again);
      assert Skips(k - 1) + [Skipped] == Skips(k);
    }
  }

  // ---------------------------------------------------------------------------------------------
  // The downloader object

  /**
   * An `Imgur_Downloader`: the API client it extends, the download path and overwrite flag of its
   * configuration, its `max_favorites`, and the filesystem it writes to.
   */
  class ImgurDownloader {
    const imgur: Imgur
    const downloadPath: string
    const overwrite: bool
    const maxFavorites: int
    const fs: FileSystem

    constructor (imgur: Imgur, downloadPath: string, overwrite: bool, maxFavorites: int, fs: FileSystem)
      ensures this.imgur == imgur && this.downloadPath == downloadPath && this.overwrite == overwrite
      ensures this.maxFavorites == maxFavorites && this.fs == fs
    {
      this.imgur := imgur;
      this.downloadPath := downloadPath;
      this.overwrite := overwrite;
      this.maxFavorites := maxFavorites;
      this.fs := fs;
    }

    /** `download`: the rule `DownloadEffect`, fetching `url` only when the file is not skipped. */
    method Download(filename: string, url: string, path: string, respond: Request -> FetchResponse) returns (outcome: Outcome)
      modifies fs, imgur.server
      ensures (fs.disk, outcome) == DownloadEffect(old(fs.disk), overwrite, filename, path, respond(FetchRequest(url)))
      ensures imgur.server.requested == old(imgur.server.requested) + if outcome == Skipped then [] else [FetchRequest(url)]
    {
      if !fs.PathExists(path) {
        fs.MakeDirectories(path);
      }
      if !overwrite && fs.PathExists(Join(path, filename)) {
        return Skipped;
      }
      var resp := imgur.server.Send(FetchRequest(url), respond);
      if resp.status == 200 {
        fs.Write(Join(path, filename), resp.body);
        outcome := Saved;
      } else {
        outcome := Failed(resp.status);
      }
    }

    /** The `enumerate` loop of `download_album`: the name and link of each image, at positions from 1, then `download` for each in order. */
    method DownloadImages(path: string, albumId: string, images: seq<ImageData>, respond: Request -> FetchResponse)
      returns (outcomes: seq<Outcome>)
      modifies fs, imgur.server
      ensures var run := RunDownloads(old(fs.disk), overwrite, path, AlbumJobs(albumId, images), respond);
        outcomes == run.outcomes && fs.disk == run.disk && imgur.server.requested == old(imgur.server.requested) + run.fetched
    {
      var jobs := AlbumJobs(albumId, images);
      outcomes := [];
      for i := 0 to |jobs|
        invariant var run := RunDownloads(old(fs.disk), overwrite, path, jobs[..i], respond);
          fs.disk == run.disk && outcomes == run.outcomes && imgur.server.requested == old(imgur.server.requested) + run.fetched
      {
        ghost var prev := RunDownloads(old(fs.disk), overwrite, path, jobs[..i], respond).fetched;
        var outcome := Download(jobs[i].filename, jobs[i].url, path, respond);
        outcomes := outcomes + [outcome];
        RunStep(old(fs.disk), overwrite, path, jobs, respond, i, fs.disk, outcome);
        LogAppend(old(imgur.server.requested), prev, if outcome == Skipped then [] else [FetchRequest(jobs[i].url)]);
      }
      assert jobs[..|images|] == jobs;
    }

    /**
     * `download_album`: fetch the album (a failed answer raises before anything is written), make its
     * folder, then download every image in order as `"<album id> - <position><ext>"`.
     */
    method DownloadAlbum(id: string, respondAlbum: Request -> ApiResponse<AlbumData>, respondFile: Request -> FetchResponse)
      returns (r: Result<seq<Outcome>, ImgurResponseNotSuccess>)
      modifies fs, imgur.server
      ensures var resp := respondAlbum(AlbumRequest(imgur.clientId, id));
        !resp.success ==> (r == Err(ImgurResponseNotSuccess(NotSuccessMessage)) && fs.disk == old(fs.disk)
          && imgur.server.requested == old(imgur.server.requested) + [AlbumRequest(imgur.clientId, id)])
      ensures var resp := respondAlbum(AlbumRequest(imgur.clientId, id));
        var folder := AlbumFolder(downloadPath, resp.data);
        var run := RunDownloads(EnsureDir(old(fs.disk), folder), overwrite, folder, AlbumJobs(resp.data.id, resp.data.images), respondFile);
        resp.success ==> (r == Ok(run.outcomes) && fs.disk == run.disk
          && imgur.server.requested == old(imgur.server.requested) + [AlbumRequest(imgur.clientId, id)] + run.fetched)
    {
      var album := imgur.GetAlbum(id, respondAlbum);
      if album.Err? {
        return Err(album.error);
      }
      var data := album.value;
      var title := AlbumTitle(data);
      title := ReplaceCharacters(title);
      var path := Join(downloadPath, title);
      if !fs.PathExists(path) {
        fs.MakeDirectories(path);
      }
      var outcomes := DownloadImages(path, data.id, data.images, respondFile);
      return Ok(outcomes);
    }
  }
}
