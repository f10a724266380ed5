/** `download/wallpaper_flare.rs`: the Wallpaper Flare downloader. The page
    link is normalised, the first page is fetched and searched for the link
    to the download page; the download page itself is handled by a second
    stage that is given as a parameter. */
module WallpaperFlare {

  import opened Wrappers
  import opened Text
  import opened DonErrors
  import opened DonErrorCtx
  import opened DonErrorLib
  import opened OptionExtensions
  import opened ResultExtensions

  /** The suffixes stripped from the link, in this order. */
  const Suffixes: seq<string> := ["download", "download/"]

  const AnchorMissing: string := "Couldn't find any tag 'a' with class 'link_btn aq mt20'"
  const HrefMissing: string := "The tag was found but doesn't contain an attribute 'href'"
  const SourceCodeKey: string := "source code"

  /** Each of `suffixes`, in order, removed once when the text then ends with it.
      The result is always a prefix of the input. */
  function StripEach(url: string, suffixes: seq<string>): (r: string)
    ensures |r| <= |url| && r == url[..|r|]
    decreases |suffixes|
  {
    if suffixes == [] then url
    else
      var r := StripEach(StripSuffix(url, suffixes[0]), suffixes[1..]);
      assert r == url[..|r|] by {
        var u := StripSuffix(url, suffixes[0]);
        assert u == url[..|u|];
      }
      r
  }

  /** The `for` loop over the suffixes: `url` is reassigned once per suffix. */
  method NormaliseUrl(url: string) returns (r: string)
    ensures r == StripEach(url, Suffixes)
  {
    r := url;
    for i := 0 to |Suffixes|
      invariant StripEach(r, Suffixes[i..]) == StripEach(url, Suffixes)
    {
      assert Suffixes[i..][1..] == Suffixes[i + 1..];
      r := StripSuffix(r, Suffixes[i]);
    }
    assert Suffixes[|Suffixes|..] == [];
  }

  /** A link ending in neither suffix is kept as it is. */
  lemma NormaliseKeepsOthers(url: string)
    requires !EndsWith(url, "download") && !EndsWith(url, "download/")
    ensures StripEach(url, Suffixes) == url
  {
    assert Suffixes[1..][1..] == [];
  }

  /** "download" is tried first, so "download/" at the end loses only
      "download/", and a doubled "download" loses only one of them. */
  lemma NormaliseExamples()
    ensures StripEach("a/download", Suffixes) == "a/"
    ensures StripEach("a/download/", Suffixes) == "a/"
    ensures StripEach("a/downloaddownload", Suffixes) == "a/download"
    ensures StripEach("a/download/download", Suffixes) == "a/"
  {
    assert Suffixes[1..][1..] == [];
    assert EndsWith("a/download", "download");
    assert !EndsWith("a/", "download/");
    assert !EndsWith("a/download/", "download");
    assert EndsWith("a/download/", "download/");
    assert EndsWith("a/downloaddownload", "download");
    assert StripSuffix("a/downloaddownload", "download") == "a/download";
    assert !EndsWith("a/download", "download/");
    assert EndsWith("a/download/download", "download");
    assert StripSuffix("a/download/download", "download") == "a/download/";
    assert EndsWith("a/download/", "download/");
  }

  /** What the first page yields for the selector `a.link_btn.aq.mt20`: no
      such tag, a tag without `href`, or the link its `href` holds. */
  datatype Anchor = NoAnchor | NoHref | Href(link: string)

  /** `download`: `fetch` stands for `reqwest::blocking::get(..)?.text()?`,
      `firstAnchor` for the HTML parsing and the selector lookup of the first
      page, `serialize` for `serde_json::to_value` of the page text and
      `secondStage` for everything done with the download page link.
      `fetched` lists, in order, the links fetched by the first stage and
      handed to the second. */
  method Download(url: string, fetch: string -> DonResult<string>, firstAnchor: string -> Anchor,
                  serialize: string -> Json, secondStage: string -> DonResult<()>)
    returns (r: DonResult<()>, fetched: seq<string>)
    ensures |fetched| >= 1 && fetched[0] == StripEach(url, Suffixes)
    ensures fetch(fetched[0]).Err? ==> r == Err(fetch(fetched[0]).error) && |fetched| == 1
    ensures fetch(fetched[0]).Ok? ==>
              var page := fetch(fetched[0]).value;
              var context := [Pair(SourceCodeKey, serialize(page))];
              && (firstAnchor(page) == NoAnchor ==> r == Err(ErrMsg(AnchorMissing).WithCtx(context)))
              && (firstAnchor(page) == NoHref ==> r == Err(ErrMsg(HrefMissing).WithCtx(context)))
              && (firstAnchor(page).Href? ==> r == secondStage(firstAnchor(page).link))
    ensures |fetched| == 2 <==> fetch(fetched[0]).Ok? && firstAnchor(fetch(fetched[0]).value).Href?
    ensures |fetched| == 2 ==> fetched[1] == firstAnchor(fetch(fetched[0]).value).link
    ensures r.Ok? ==> |fetched| == 2
    ensures |fetched| <= 2
  {
    var normalised := NormaliseUrl(url);
    fetched := [normalised];
    var page := fetch(normalised);
    if page.Err? {
      return Err(page.error), fetched;
    }
    var ctx := new DonErrorContext.New();
    ctx := ctx.WithSer(SourceCodeKey, page.value, serialize);
    var anchor := firstAnchor(page.value);
    var found := ErrCtx(OkOrDonErr(if anchor.NoAnchor? then None else Some(anchor), AnchorMissing), e => e, ctx);
    if found.Err? {
      return Err(found.error), fetched;
    }
    var href := ErrCtx(OkOrDonErr(if anchor.Href? then Some(anchor.link) else None, HrefMissing), e => e, ctx);
    if href.Err? {
      return Err(href.error), fetched;
    }
    fetched := fetched + [href.value];
    r := secondStage(href.value);
  }
}
