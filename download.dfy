/** `download/mod.rs`: every bookmark of the Firefox folder
    "toolbar/Wallpaper/Download" whose host is a supported site is downloaded
    and deleted; any other bookmark is moved to the sub-folder "Unsupported
    domains"; once every bookmark is handled the wallpapers are sorted. */
module Download {

  import opened Wrappers
  import opened Text
  import opened DonErrors
  import opened DonErrorLib
  import opened OptionExtensions
  import opened Process
  import opened FirefoxStructs
  import opened FirefoxClient
  import opened FirefoxBookmarks

  const DownloadFolderPath: string := "toolbar/Wallpaper/Download"
  const HoldingTitle: string := "Unsupported domains"
  const SplitNeverEmpty: string := "split never returns empty iterator"

  /** The sites with a downloader. */
  datatype Site = Flickr | Wallhaven | WallpaperFlare

  /** The host a bookmark must have to go to the site's downloader. */
  function SiteName(site: Site): string
  {
    match site
    case Flickr => "flickr"
    case Wallhaven => "wallhaven"
    case WallpaperFlare => "wallpaperflare"
  }

  /** The `match` on the host: exactly one of the three names selects its
      site; anything else, or no host, selects none. */
  function SiteOf(domain: Option<string>): (r: Option<Site>)
    ensures forall site :: r == Some(site) <==> domain == Some(SiteName(site))
  {
    match domain
    case Some("flickr") => Some(Flickr)
    case Some("wallhaven") => Some(Wallhaven)
    case Some("wallpaperflare") => Some(WallpaperFlare)
    case _ => None
  }

  /** The world `perform` runs in: the Firefox Sync client and its tool, the
      URL parser (`Url::parse(url)?.domain()`), and each site's `download`. */
  datatype Env = Env(client: Client, ffs: Ffsclient, domainOf: string -> DonResult<Option<string>>,
                     download: (Site, string) -> DonResult<()>)

  /** What has been done so far: the commands run by the Firefox Sync tool and
      the downloads started, each as its site and the bookmark's URL. */
  datatype Trace = Trace(commands: seq<Command>, downloads: seq<(Site, string)>)

  /** The find-or-create of the holding folder: the first sub-folder of the
      download folder titled "Unsupported domains", else a new one created in it. */
  function HoldingFolder(env: Env, log: seq<Command>, toDownload: Folder): (r: (DonResult<Folder>, seq<Command>))
    ensures r.0.Ok? ==> r.0.value.title == HoldingTitle
    ensures FirstTitled(SubFolders(toDownload.children), HoldingTitle).Some? ==>
              r == (Ok(FirstTitled(SubFolders(toDownload.children), HoldingTitle).value), log)
    ensures FirstTitled(SubFolders(toDownload.children), HoldingTitle).None? ==>
              && |r.1| > |log| && r.1[|log|] == CommandOf(CreateFolderArgs(CreateFolderInput(HoldingTitle, toDownload.id)))
              && (r.0.Ok? ==> r.0.value.parentId == Some(toDownload.id) && r.0.value.children == [])
  {
    match FirstTitled(SubFolders(toDownload.children), HoldingTitle)
    case Some(folder) => (Ok(folder), log)
    case None => CreateFolder(env.client, env.ffs, log, CreateFolderInput(HoldingTitle, toDownload.id))
  }

  /** `download_and_delete_bookmark`: the download, then the delete, which is
      skipped when the download fails. */
  function DownloadAndDelete(env: Env, t: Trace, site: Site, bookmark: Bookmark): (r: (DonResult<()>, Trace))
    ensures r.1.downloads == t.downloads + [(site, bookmark.url)]
    ensures env.download(site, bookmark.url).Err? ==>
              r == (Err(env.download(site, bookmark.url).error), Trace(t.commands, r.1.downloads))
    ensures env.download(site, bookmark.url).Ok? ==>
              |r.1.commands| > |t.commands| && r.1.commands[..|t.commands| + 1] == t.commands + [CommandOf(DeleteArgs(bookmark.id))]
    // After a download, the outcome is the delete's.
    ensures env.download(site, bookmark.url).Ok? ==>
              var deleted := DeleteBookmark(env.client, env.ffs, t.commands, bookmark.id);
              r == (deleted.0, Trace(deleted.1, t.downloads + [(site, bookmark.url)]))
  {
    var downloads := t.downloads + [(site, bookmark.url)];
    match env.download(site, bookmark.url)
    case Err(e) => (Err(e), Trace(t.commands, downloads))
    case Ok(_) =>
      var (res, commands) := DeleteBookmark(env.client, env.ffs, t.commands, bookmark.id);
      (res, Trace(commands, downloads))
  }

  /** One turn of the loop. A URL that does not parse ends it with the parse
      error. A supported host is downloaded and, only then, deleted. Any other
      host is moved to the holding folder: nothing is downloaded, and the
      bookmark is first copied there. */
  function HandleBookmark(env: Env, t: Trace, holding: Folder, bookmark: Bookmark): (r: (DonResult<()>, Trace))
    ensures env.domainOf(bookmark.url).Err? ==> r == (Err(env.domainOf(bookmark.url).error), t)
    ensures env.domainOf(bookmark.url).Ok? && SiteOf(env.domainOf(bookmark.url).value).Some? ==>
              var site := SiteOf(env.domainOf(bookmark.url).value).value;
              && r.1.downloads == t.downloads + [(site, bookmark.url)]
              && (r.1.commands != t.commands <==> env.download(site, bookmark.url).Ok?)
              && (env.download(site, bookmark.url).Ok? ==>
                    |r.1.commands| > |t.commands| && r.1.commands[|t.commands|] == CommandOf(DeleteArgs(bookmark.id)))
              && (env.download(site, bookmark.url).Err? ==> r.0 == Err(env.download(site, bookmark.url).error))
              && (env.download(site, bookmark.url).Ok? ==>
                    var deleted := DeleteBookmark(env.client, env.ffs, t.commands, bookmark.id);
                    r == (deleted.0, Trace(deleted.1, t.downloads + [(site, bookmark.url)])))
    ensures env.domainOf(bookmark.url).Ok? && SiteOf(env.domainOf(bookmark.url).value).None? ==>
              && r.1.downloads == t.downloads
              && (bookmark.parentId != Some(holding.id) ==>
                    |r.1.commands| > |t.commands|
                    && r.1.commands[|t.commands|]
                       == CommandOf(CreateBookmarkArgs(CreateBookmarkInput(bookmark.url, bookmark.title, holding.id))))
              && var moved := MoveBookmark(env.client, env.ffs, t.commands, bookmark, holding);
                 r == (moved.0, Trace(moved.1, t.downloads))
    ensures t.commands <= r.1.commands && t.downloads <= r.1.downloads
  {
    match env.domainOf(bookmark.url)
    case Err(e) => (Err(e), t)
    case Ok(domain) =>
      match SiteOf(domain)
      case Some(site) =>
        var r := DownloadAndDelete(env, t, site, bookmark);
        assert t.commands <= r.1.commands by {
          if env.download(site, bookmark.url).Ok? {
            assert t.commands <= t.commands + [CommandOf(DeleteArgs(bookmark.id))] <= r.1.commands;
          }
        }
        r
      case None =>
        var (res, commands) := MoveBookmark(env.client, env.ffs, t.commands, bookmark, holding);
        assert t.commands <= commands by {
          var input := CreateBookmarkInput(bookmark.url, bookmark.title, holding.id);
          var created := CreateBookmark(env.client, env.ffs, t.commands, input);
          if bookmark.parentId != Some(holding.id) && created.0.Ok? {
            assert commands[..|created.1|] == commands[..|created.1| + 1][..|created.1|];
          }
        }
        (res, Trace(commands, t.downloads))
  }

  /** The loop over the bookmarks, in order; the first error ends it. */
  function HandleAll(env: Env, t: Trace, holding: Folder, bookmarks: seq<Bookmark>): (r: (DonResult<()>, Trace))
    ensures t.commands <= r.1.commands && t.downloads <= r.1.downloads
    decreases |bookmarks|
  {
    if bookmarks == [] then (Ok(()), t)
    else
      var step := HandleBookmark(env, t, holding, bookmarks[0]);
      if step.0.Err? then step
      else HandleAll(env, step.1, holding, bookmarks[1..])
  }

  /** Every download the loop starts is of a bookmark of the list whose host
      names that download's site. */
  lemma {:induction false} DownloadsOfBookmarks(env: Env, t: Trace, holding: Folder, bookmarks: seq<Bookmark>, k: nat)
    requires |t.downloads| <= k < |HandleAll(env, t, holding, bookmarks).1.downloads|
    ensures var d := HandleAll(env, t, holding, bookmarks).1.downloads[k];
            exists i :: 0 <= i < |bookmarks| && d.1 == bookmarks[i].url
                        && env.domainOf(bookmarks[i].url) == Ok(Some(SiteName(d.0)))
    decreases |bookmarks|
  {
    var r := HandleAll(env, t, holding, bookmarks);
    var step := HandleBookmark(env, t, holding, bookmarks[0]);
    if k < |step.1.downloads| {
      assert step.1.downloads != t.downloads;
      assert step.1.downloads[k] == r.1.downloads[k];
      assert step.1.downloads[k] == (step.1.downloads[k].0, bookmarks[0].url);
    } else {
      DownloadsOfBookmarks(env, step.1, holding, bookmarks[1..], k);
      var i :| 0 <= i < |bookmarks[1..]| && r.1.downloads[k].1 == bookmarks[1..][i].url
               && env.domainOf(bookmarks[1..][i].url) == Ok(Some(SiteName(r.1.downloads[k].0)));
      assert bookmarks[1..][i] == bookmarks[i + 1];
    }
  }

  /** An error from the loop is the error of one bookmark, every bookmark
      before it having been handled without error; nothing is done for the
      bookmarks after it. */
  lemma {:induction false} FirstErrorAborts(env: Env, t: Trace, holding: Folder, bookmarks: seq<Bookmark>)
    requires HandleAll(env, t, holding, bookmarks).0.Err?
    ensures exists i :: 0 <= i < |bookmarks|
              && HandleAll(env, t, holding, bookmarks[..i]).0.Ok?
              && HandleBookmark(env, HandleAll(env, t, holding, bookmarks[..i]).1, holding, bookmarks[i])
                 == HandleAll(env, t, holding, bookmarks)
    decreases |bookmarks|
  {
    var step := HandleBookmark(env, t, holding, bookmarks[0]);
    if step.0.Err? {
      assert bookmarks[..0] == [];
    } else {
      FirstErrorAborts(env, step.1, holding, bookmarks[1..]);
      var j :| 0 <= j < |bookmarks[1..]|
               && HandleAll(env, step.1, holding, bookmarks[1..][..j]).0.Ok?
               && HandleBookmark(env, HandleAll(env, step.1, holding, bookmarks[1..][..j]).1, holding, bookmarks[1..][j])
                  == HandleAll(env, step.1, holding, bookmarks[1..]);
      var prefix := bookmarks[..j + 1];
      assert prefix[0] == bookmarks[0] && prefix[1..] == bookmarks[1..][..j];
      assert HandleAll(env, t, holding, prefix) == HandleAll(env, step.1, holding, bookmarks[1..][..j]);
      assert bookmarks[1..][j] == bookmarks[j + 1];
    }
  }

  /** When the loop ends without error, every bookmark with a supported host
      was downloaded. */
  lemma {:induction false} SupportedDownloaded(env: Env, t: Trace, holding: Folder, bookmarks: seq<Bookmark>, i: nat)
    requires HandleAll(env, t, holding, bookmarks).0.Ok?
    requires i < |bookmarks| && env.domainOf(bookmarks[i].url).Ok?
    requires SiteOf(env.domainOf(bookmarks[i].url).value).Some?
    ensures (SiteOf(env.domainOf(bookmarks[i].url).value).value, bookmarks[i].url)
            in HandleAll(env, t, holding, bookmarks).1.downloads
    decreases |bookmarks|
  {
    var step := HandleBookmark(env, t, holding, bookmarks[0]);
    var r := HandleAll(env, t, holding, bookmarks);
    if i == 0 {
      var d := (SiteOf(env.domainOf(bookmarks[0].url).value).value, bookmarks[0].url);
      assert step.1.downloads[|t.downloads|] == d;
      assert r.1.downloads[..|step.1.downloads|] == step.1.downloads;
      assert r.1.downloads[|t.downloads|] == d;
    } else {
      SupportedDownloaded(env, step.1, holding, bookmarks[1..], i - 1);
      assert bookmarks[1..][i - 1] == bookmarks[i];
    }
  }

  /** `perform`. `parse` stands for the parsing of the bookmark listing and
      `sort` for the outcome of `sort::perform(false)`. Returns the outcome,
      what was done and whether the sort ran. */
  method Perform(env: Env, log: seq<Command>, parse: ParseListing, sort: DonResult<()>)
    returns (r: DonResult<()>, trace: Trace, sortRan: bool)
    ensures var listing := GetAllBookmarks(env.client, env.ffs, log, parse);
            var folder := GetFolderOf(listing.0, DownloadFolderPath);
            && (folder.Err? ==> r == Err(folder.error) && trace == Trace(listing.1, []) && !sortRan)
            && (folder.Ok? ==>
                  var holding := HoldingFolder(env, listing.1, folder.value);
                  && (holding.0.Err? ==> r == Err(holding.0.error) && trace == Trace(holding.1, []) && !sortRan)
                  && (holding.0.Ok? ==>
                        var handled := HandleAll(env, Trace(holding.1, []), holding.0.value, Bookmarks(folder.value.children));
                        trace == handled.1 && (sortRan <==> handled.0.Ok?) && (handled.0.Err? ==> r == handled.0)))
    ensures sortRan ==> r == sort
  {
    var toDownload, commands := GetFolder(env.client, env.ffs, log, parse, DownloadFolderPath);
    if toDownload.Err? {
      return Err(toDownload.error), Trace(commands, []), false;
    }
    var folder := toDownload.value;
    var holding;
    holding, commands := HoldingFolder(env, commands, folder).0, HoldingFolder(env, commands, folder).1;
    if holding.Err? {
      return Err(holding.error), Trace(commands, []), false;
    }
    trace := Trace(commands, []);
    var bookmarks := Bookmarks(folder.children);
    ghost var start := trace;
    for i := 0 to |bookmarks|
      invariant HandleAll(env, trace, holding.value, bookmarks[i..]) == HandleAll(env, start, holding.value, bookmarks)
    {
      assert bookmarks[i..][1..] == bookmarks[i + 1..];
      var step := HandleBookmark(env, trace, holding.value, bookmarks[i]);
      trace := step.1;
      if step.0.Err? {
        return Err(step.0.error), trace, false;
      }
    }
    assert bookmarks[|bookmarks|..] == [];
    sortRan := true;
    // `sort::perform(false)?; Ok(())`: with a unit result, that is the sort's outcome
    r := sort;
  }

  /** `download_file`'s target: the wallpapers directory, then the text after
      the last '/' of the link (all of it when there is none). `split` always
      yields a last piece, so the lookup never fails. */
  function TargetPath(wallpapersDir: string, link: string): (r: DonResult<string>)
    ensures r.Ok?
    ensures exists k :: 0 <= k <= |link| && r.value == wallpapersDir + "/" + link[k..]
                        && '/' !in link[k..] && (k == 0 || link[k - 1] == '/')
  {
    var parts := Split(link, '/');
    var name := parts[|parts| - 1];
    SplitLast(link, '/');
    assert link[|link| - |name|..] == name;
    match OkOrDonErr(Some(name), SplitNeverEmpty)
    case Ok(n) => Ok(wallpapersDir + "/" + n)
    case Err(e) => Err(e)
  }

  /** `download_file`: `store` stands for creating the file at the given path
      and copying into it what the link serves. */
  function DownloadFile(wallpapersDir: string, link: string, store: (string, string) -> DonResult<()>): (r: DonResult<()>)
    ensures exists k :: 0 <= k <= |link| && '/' !in link[k..] && (k == 0 || link[k - 1] == '/')
                        && r == store(wallpapersDir + "/" + link[k..], link)
  {
    match TargetPath(wallpapersDir, link)
    case Ok(path) => store(path, link)
    case Err(e) => Err(e)
  }
}
