/** The lyrics scraper: candidate URLs, the selector cascade on a fetched page, the
    direct site search over the candidate URLs, and the strategy loop that ends with
    the demo lyrics. Fetching a page and querying it with a CSS selector are inputs. */
module Scraper {
  import opened JsStrings
  import opened Slugifier
  import opened LyricsText
  import opened FirstMatch

  /** A request argument as it reaches the scraper: a string, or any other JSON value,
      carried with the text a template literal turns it into. */
  datatype Arg = Str(s: string) | NonStr(shown: string)

  /** `${x}` in a template literal. */
  function Show(a: Arg): string {
    match a
    case Str(s) => s
    case NonStr(shown) => shown
  }

  /** `{ success: true, lyrics, source }` or `{ success: false, error }`. */
  datatype SearchResult = Found(lyrics: string, source: string) | Failed(error: string)

  /** What one strategy does: it throws, or it returns a result or `null`. */
  datatype Outcome = Threw | Returned(result: Option<SearchResult>)

  datatype Strategy = DirectSiteSearch | GoogleSearch | FallbackMock

  /** A loaded page: the text of the first element a selector matches, or `None` when
      nothing matches or the selector throws. */
  type Page = string -> Option<string>

  /** The network: the page loaded from a URL, or `None` when the request fails. */
  type Web = string -> Option<Page>

  /** The strategies the constructor installs, in the order they are tried. */
  const DefaultStrategies: seq<Strategy> := [DirectSiteSearch, GoogleSearch, FallbackMock]

  const AllStrategiesFailed := "All search strategies failed"
  const DemoSource := "Demo lyrics (development mode)"

  /** The selectors of `extractLyricsFromPage`, in the order they are tried. */
  const Selectors: seq<string> := [
    ".song-text", ".lyrics", ".paroles", "[class*=\"lyrics\"]", "[class*=\"paroles\"]",
    "[data-lyrics-container=\"true\"]", ".Lyrics__Container-sc-1ynbvzw-6",
    ".song-lyrics", "#lyrics", ".lyric-text", "[id*=\"lyrics\"]",
    "div[class*=\"song\"] div[class*=\"text\"]", ".content .lyrics",
    "div:contains(\"couplet\")", "div:contains(\"refrain\")", "div:contains(\"verse\")"
  ]

  // ---------------------------------------------------------------------------
  // getSiteFromUrl and the candidate URLs

  /** `getSiteFromUrl`. */
  function SiteFromUrl(url: string): string {
    if Contains(url, "paroles.net") then "paroles.net"
    else if Contains(url, "genius.com") then "genius.com"
    else "Unknown site"
  }

  /** The three URL templates of `tryDirectSiteSearch`, for an artist slug `a` and a
      title slug `t`. */
  function UrlTemplates(a: string, t: string): seq<string> {
    [ "https://www.paroles.net/" + a + "/paroles-" + t,
      "https://www.paroles.net/" + a + "/" + t,
      "https://genius.com/" + a + "-" + t + "-lyrics" ]
  }

  /** The candidate URLs for a title and an artist. */
  function CandidateUrls(title: string, artist: string): seq<string> {
    UrlTemplates(CleanForUrl(artist), CleanForUrl(title))
  }

  // ---------------------------------------------------------------------------
  // The specification of the three loops

  /** The first element `selector` matches holds text that, trimmed, looks like lyrics. */
  predicate Accepts(page: Page, selector: string) {
    page(selector).Some? && LooksLikeLyrics(Trim(page(selector).value))
  }

  /** What one pass of the selector loop yields: the cleaned text when the selector
      is accepted, and nothing otherwise. */
  function SelectorResult(page: Page, selector: string): Option<string> {
    if Accepts(page, selector) then Some(CleanLyrics(Trim(page(selector).value))) else None
  }

  function SelectorResultOf(page: Page): string -> Option<string> {
    selector => SelectorResult(page, selector)
  }

  /** The cleaned text of the first accepted selector among `selectors`. */
  function FirstAccepted(page: Page, selectors: seq<string>): Option<string> {
    FirstSome(selectors, SelectorResultOf(page))
  }

  /** What `extractLyricsFromPage` returns for a page. */
  function Extracted(page: Page): Option<string> {
    FirstAccepted(page, Selectors)
  }

  /** What `scrapePage` returns for a URL. */
  function Scraped(web: Web, url: string): Option<string> {
    if web(url).None? then None else Extracted(web(url).value)
  }

  /** The lyrics scraped from `url` are longer than the bar of line 73. */
  predicate LongEnough(web: Web, url: string) {
    Scraped(web, url).Some? && |Scraped(web, url).value| > MinLyricsLength
  }

  /** What one pass of the URL loop yields: a success with the scraped lyrics and the
      site when they are long enough, and nothing otherwise. */
  function UrlResult(web: Web, url: string): Option<SearchResult> {
    if LongEnough(web, url) then Some(Found(Scraped(web, url).value, SiteFromUrl(url))) else None
  }

  function UrlResultOf(web: Web): string -> Option<SearchResult> {
    url => UrlResult(web, url)
  }

  /** The result for the first URL among `urls` whose lyrics are long enough. */
  function FirstLongEnough(web: Web, urls: seq<string>): Option<SearchResult> {
    FirstSome(urls, UrlResultOf(web))
  }

  /** What `tryDirectSiteSearch` does: building the URLs throws unless both arguments
      are strings, since `cleanForUrl` calls `toLowerCase` on them. */
  function DirectSearch(title: Arg, artist: Arg, web: Web): Outcome {
    if title.Str? && artist.Str? then
      Returned(FirstLongEnough(web, CandidateUrls(title.s, artist.s)))
    else Threw
  }

  /** `tryGoogleSearch`: its search terms are never used and it always gives up. */
  function TryGoogleSearch(title: Arg, artist: Arg): Option<SearchResult> {
    None
  }

  function Couplet1(t: string): string {
    "[Couplet 1]\n" + "Dans les rues de Paris\nJe pense \U{00E0} notre histoire\n"
    + t + ", tu es partie\nMais je garde l'espoir"
  }

  /** The chorus; its first occurrence has two spaces after the fourth line's text. */
  function Refrain(t: string, pad: string): string {
    "[Refrain]\n" + t + ", " + t + "\nReviens-moi ce soir\n" + t + ", " + t + pad
    + "\nDans mon c\U{0153}ur tu peux voir"
  }

  function Couplet2(a: string): string {
    "[Couplet 2]\n" + a
    + " me chantait\nCette chanson d'amour\nMaintenant je sais\nQue l'amour dure toujours"
  }

  const Pont := "[Pont]\nLes souvenirs dansent\nDans la lumi\U{00E8}re du matin\n"
    + "Notre amour recommence\nComme un nouveau refrain"

  const Note := "[Note: Ces paroles sont g\U{00E9}n\U{00E9}r\U{00E9}es pour d\U{00E9}monstration]"

  /** The demo lyrics template, stanzas separated by blank lines. */
  function DemoLyrics(t: string, a: string): string {
    Couplet1(t) + ("\n\n" + Refrain(t, "  ") + ("\n\n" + Couplet2(a) + ("\n\n"
    + Refrain(t, "") + ("\n\n" + Pont + ("\n\n" + Note)))))
  }

  /** `generateTestLyrics`: the demo template filled in with the title and the artist. */
  function GenerateTestLyrics(title: Arg, artist: Arg): SearchResult {
    Found(DemoLyrics(Show(title), Show(artist)), DemoSource)
  }

  function StrategyOutcome(strategy: Strategy, title: Arg, artist: Arg, web: Web): Outcome {
    match strategy
    case DirectSiteSearch => DirectSearch(title, artist, web)
    case GoogleSearch => Returned(TryGoogleSearch(title, artist))
    case FallbackMock => Returned(Some(GenerateTestLyrics(title, artist)))
  }

  /** `result && result.success`. */
  predicate Succeeded(o: Outcome) {
    o.Returned? && o.result.Some? && o.result.value.Found?
  }

  /** The outcome of each strategy for one search. */
  function OutcomesOf(title: Arg, artist: Arg, web: Web): Strategy -> Outcome {
    strategy => StrategyOutcome(strategy, title, artist, web)
  }

  /** What one pass of the strategy loop yields: the result when the strategy
      succeeded, and nothing when it threw, returned `null` or failed. */
  function Success(o: Outcome): Option<SearchResult> {
    if Succeeded(o) then Some(o.result.value) else None
  }

  function SuccessOf(outcomes: Strategy -> Outcome): Strategy -> Option<SearchResult> {
    strategy => Success(outcomes(strategy))
  }

  /** The result of trying `strategies` in order, each with the outcome `outcomes`
      gives it. */
  function FirstSuccess(strategies: seq<Strategy>, outcomes: Strategy -> Outcome): SearchResult {
    var r := FirstSome(strategies, SuccessOf(outcomes));
    if r.Some? then r.value else Failed(AllStrategiesFailed)
  }

  /** The result of trying `strategies` in order for one search. */
  function RunStrategies(strategies: seq<Strategy>, title: Arg, artist: Arg, web: Web): SearchResult {
    FirstSuccess(strategies, OutcomesOf(title, artist, web))
  }

  // ---------------------------------------------------------------------------
  // The scraper

  class LyricsScraper {
    const searchStrategies: seq<Strategy>

    constructor()
      ensures searchStrategies == DefaultStrategies
    {
      searchStrategies := DefaultStrategies;
    }

    /** `extractLyricsFromPage`: the selectors are tried in order; the first whose
        trimmed text looks like lyrics gives the cleaned lyrics. */
    method ExtractLyricsFromPage(page: Page) returns (lyrics: Option<string>)
      ensures lyrics == Extracted(page)
      ensures lyrics.Some? ==> IsCleanText(lyrics.value)
    {
      var i := 0;
      while i < |Selectors|
        invariant 0 <= i <= |Selectors|
        invariant FirstAccepted(page, Selectors[i..]) == Extracted(page)
      {
        assert Selectors[i..][1..] == Selectors[i + 1..];
        var element := page(Selectors[i]);
        if element.Some? {
          var text := Trim(element.value);
          if LooksLikeLyrics(text) {
            CleanLyricsIsClean(text);
            return Some(CleanLyrics(text));
          }
        }
        i := i + 1;
      }
      return None;
    }

    /** `scrapePage`: a failed request gives `null`, a loaded page goes through the
        selector cascade. */
    method ScrapePage(url: string, web: Web) returns (lyrics: Option<string>)
      ensures lyrics == Scraped(web, url)
      ensures lyrics.Some? ==> IsCleanText(lyrics.value)
    {
      var response := web(url);
      if response.None? {
        return None;
      }
      lyrics := ExtractLyricsFromPage(response.value);
    }

    /** `tryDirectSiteSearch`: the candidate URLs are tried in order; the first whose
        lyrics are longer than 50 characters is the result. */
    method TryDirectSiteSearch(title: Arg, artist: Arg, web: Web) returns (outcome: Outcome)
      ensures outcome == DirectSearch(title, artist, web)
    {
      if !title.Str? || !artist.Str? {
        return Threw;
      }
      var urls := CandidateUrls(title.s, artist.s);
      var i := 0;
      while i < |urls|
        invariant 0 <= i <= |urls|
        invariant FirstLongEnough(web, urls[i..]) == FirstLongEnough(web, urls)
      {
        assert urls[i..][1..] == urls[i + 1..];
        var lyrics := ScrapePage(urls[i], web);
        if lyrics.Some? && |lyrics.value| > MinLyricsLength {
          return Returned(Some(Found(lyrics.value, SiteFromUrl(urls[i]))));
        }
        i := i + 1;
      }
      return Returned(None);
    }

    /** The `switch` on the strategy name. */
    method RunStrategy(strategy: Strategy, title: Arg, artist: Arg, web: Web)
      returns (outcome: Outcome)
      ensures outcome == StrategyOutcome(strategy, title, artist, web)
    {
      match strategy {
        case DirectSiteSearch =>
          outcome := TryDirectSiteSearch(title, artist, web);
        case GoogleSearch =>
          outcome := Returned(TryGoogleSearch(title, artist));
        case FallbackMock =>
          outcome := Returned(Some(GenerateTestLyrics(title, artist)));
      }
    }

    /** `searchFrenchLyrics`: the strategies are tried in order; a strategy that throws
        is skipped, and the first successful result is returned. */
    method SearchFrenchLyrics(title: Arg, artist: Arg, web: Web) returns (result: SearchResult)
      ensures result == RunStrategies(searchStrategies, title, artist, web)
    {
      var i := 0;
      while i < |searchStrategies|
        invariant 0 <= i <= |searchStrategies|
        invariant RunStrategies(searchStrategies[i..], title, artist, web)
               == RunStrategies(searchStrategies, title, artist, web)
      {
        assert searchStrategies[i..][1..] == searchStrategies[i + 1..];
        var outcome := RunStrategy(searchStrategies[i], title, artist, web);
        if Succeeded(outcome) {
          return outcome.result.value;
        }
        i := i + 1;
      }
      return Failed(AllStrategiesFailed);
    }
  }

  // ---------------------------------------------------------------------------
  // The selector cascade

  /** The cascade returns nothing exactly when no selector is accepted. */
  lemma FirstAcceptedNone(page: Page, selectors: seq<string>)
    ensures FirstAccepted(page, selectors) == None
        <==> forall k | 0 <= k < |selectors| :: !Accepts(page, selectors[k])
  {
    FirstSomeNone(selectors, SelectorResultOf(page));
  }

  /** The cascade returns the cleaned text of the earliest accepted selector. */
  lemma FirstAcceptedAt(page: Page, selectors: seq<string>, k: nat)
    requires k < |selectors| && Accepts(page, selectors[k])
    requires forall j | 0 <= j < k :: !Accepts(page, selectors[j])
    ensures FirstAccepted(page, selectors) == Some(CleanLyrics(Trim(page(selectors[k]).value)))
  {
    var f := SelectorResultOf(page);
    assert f(selectors[k]).Some? by { SelectorResultOfApply(page, selectors[k]); }
    assert forall j | 0 <= j < k :: f(selectors[j]) == None by {
      forall j | 0 <= j < k ensures f(selectors[j]) == None {
        SelectorResultOfApply(page, selectors[j]);
      }
    }
    FirstSomeAt(selectors, f, k);
    SelectorResultOfApply(page, selectors[k]);
  }

  lemma SelectorResultOfApply(page: Page, selector: string)
    ensures SelectorResultOf(page)(selector) == SelectorResult(page, selector)
    ensures SelectorResult(page, selector).Some? <==> Accepts(page, selector)
  {
  }

  /** Texts shorter than 50 characters after trimming are never accepted, whatever
      they contain: a page where every selector matches nothing or such a text gives
      nothing. */
  lemma ShortTextsGiveNothing(page: Page, selectors: seq<string>)
    requires forall k | 0 <= k < |selectors| ::
      page(selectors[k]).Some? ==> |Trim(page(selectors[k]).value)| < MinLyricsLength
    ensures FirstAccepted(page, selectors) == None
  {
    FirstAcceptedNone(page, selectors);
  }

  /** Once a selector is accepted, the selectors after it are never consulted: two
      pages that agree up to that selector give the same result. */
  lemma FirstAcceptedIgnoresLater(p1: Page, p2: Page, selectors: seq<string>, k: nat)
    requires k < |selectors| && Accepts(p1, selectors[k])
    requires forall j | 0 <= j <= k :: p1(selectors[j]) == p2(selectors[j])
    ensures FirstAccepted(p1, selectors) == FirstAccepted(p2, selectors)
  {
    var f, g := SelectorResultOf(p1), SelectorResultOf(p2);
    assert f(selectors[k]).Some? by { SelectorResultOfApply(p1, selectors[k]); }
    assert forall j | 0 <= j <= k :: f(selectors[j]) == g(selectors[j]) by {
      forall j | 0 <= j <= k ensures f(selectors[j]) == g(selectors[j]) {
        SelectorResultOfApply(p1, selectors[j]);
        SelectorResultOfApply(p2, selectors[j]);
      }
    }
    FirstSomeIgnoresLater(selectors, f, g, k);
  }

  /** Whatever the cascade returns has been cleaned. */
  lemma FirstAcceptedIsClean(page: Page, selectors: seq<string>)
    ensures FirstAccepted(page, selectors).Some? ==> IsCleanText(FirstAccepted(page, selectors).value)
  {
    FirstSomeFrom(selectors, SelectorResultOf(page));
    if FirstAccepted(page, selectors).Some? {
      var k :| 0 <= k < |selectors| && SelectorResultOf(page)(selectors[k]) == FirstAccepted(page, selectors);
      CleanLyricsIsClean(Trim(page(selectors[k]).value));
    }
  }

  /** "verse", 44 whitespace characters, a line feed and "x": 51 characters with no
      whitespace at either end and with "verse" in them. */
  lemma PaddedVerseLooksLikeLyrics(w: string)
    requires |w| == 44
    ensures Trim("verse" + w + "\n" + "x") == "verse" + w + "\n" + "x"
    ensures LooksLikeLyrics("verse" + w + "\n" + "x")
  {
    var text := "verse" + w + "\n" + "x";
    assert OccursAt("verse", 0, "verse");
    OccursBeforeRest("verse", w, 0, "verse");
    OccursBeforeRest("verse" + w, "\n", 0, "verse");
    OccursBeforeRest("verse" + w + "\n", "x", 0, "verse");
    MatchesIgnoringCase(text, 0, "verse", "verse");
    assert HasSongWord(text);
    TrimKeepsTrimmed(text);
  }

  /** Cleaning drops the padding after "verse", leaving seven characters. */
  lemma PaddedVerseCleansShort(w: string)
    requires AllSpace(w) && '\n' !in w && '\r' !in w
    ensures CleanLyrics("verse" + w + "\n" + "x") == "verse" + "\n" + "x"
    ensures |"verse" + "\n" + "x"| <= MinLyricsLength
  {
    CleanLyricsDropsLinePadding("verse", w, "x");
  }

  /** An accepted text can be cleaned below the length bar of the direct search: a
      first selector whose text is "verse", 44 whitespace characters, a line feed and
      "x" is accepted (51 characters, with "verse" in them), so the later selectors are
      never tried; cleaning leaves "verse" and "x" on two lines, which the URL loop
      then rejects as too short. */
  lemma AcceptedTextCanFallShort(page: Page, web: Web, url: string, w: string)
    requires AllSpace(w) && |w| == 44 && '\n' !in w && '\r' !in w
    requires page(Selectors[0]) == Some("verse" + w + "\n" + "x")
    requires web(url) == Some(page)
    ensures Extracted(page) == Some("verse" + "\n" + "x")
    ensures !LongEnough(web, url)
  {
    PaddedVerseExtracted(page, w);
    PaddedVerseCleansShort(w);
  }

  /** The cascade on a page whose first selector holds the padded verse. */
  lemma PaddedVerseExtracted(page: Page, w: string)
    requires AllSpace(w) && |w| == 44 && '\n' !in w && '\r' !in w
    requires page(Selectors[0]) == Some("verse" + w + "\n" + "x")
    ensures Extracted(page) == Some("verse" + "\n" + "x")
  {
    PaddedVerseFirst(page, Selectors, w);
  }

  lemma PaddedVerseFirst(page: Page, selectors: seq<string>, w: string)
    requires AllSpace(w) && |w| == 44 && '\n' !in w && '\r' !in w
    requires selectors != [] && page(selectors[0]) == Some("verse" + w + "\n" + "x")
    ensures FirstAccepted(page, selectors) == Some("verse" + "\n" + "x")
  {
    var text := "verse" + w + "\n" + "x";
    assert Accepts(page, selectors[0]) by {
      PaddedVerseLooksLikeLyrics(w);
    }
    FirstAcceptedAt(page, selectors, 0);
    assert Trim(text) == text by {
      PaddedVerseLooksLikeLyrics(w);
    }
    PaddedVerseCleansShort(w);
  }

  // ---------------------------------------------------------------------------
  // The direct site search

  /** The URL loop returns nothing exactly when no URL gives lyrics long enough. */
  lemma FirstLongEnoughNone(web: Web, urls: seq<string>)
    ensures FirstLongEnough(web, urls) == None
        <==> forall k | 0 <= k < |urls| :: !LongEnough(web, urls[k])
  {
    FirstSomeNone(urls, UrlResultOf(web));
  }

  /** The URL loop returns the lyrics of the earliest URL whose lyrics are long
      enough, with that URL's site. */
  lemma FirstLongEnoughAt(web: Web, urls: seq<string>, k: nat)
    requires k < |urls| && LongEnough(web, urls[k])
    requires forall j | 0 <= j < k :: !LongEnough(web, urls[j])
    ensures FirstLongEnough(web, urls) == Some(Found(Scraped(web, urls[k]).value, SiteFromUrl(urls[k])))
  {
    FirstSomeAt(urls, UrlResultOf(web), k);
  }

  /** A result of the URL loop carries clean lyrics longer than 50 characters and the
      site of one of the URLs. */
  lemma FirstLongEnoughShape(web: Web, urls: seq<string>)
    ensures FirstLongEnough(web, urls).Some? ==>
      var r := FirstLongEnough(web, urls).value;
      r.Found? && |r.lyrics| > MinLyricsLength && IsCleanText(r.lyrics)
      && exists k | 0 <= k < |urls| :: r.source == SiteFromUrl(urls[k])
  {
    FirstSomeFrom(urls, UrlResultOf(web));
    if FirstLongEnough(web, urls).Some? {
      var k :| 0 <= k < |urls| && UrlResultOf(web)(urls[k]) == FirstLongEnough(web, urls);
      FirstAcceptedIsClean(web(urls[k]).value, Selectors);
    }
  }

  /** No dot appears in a slug. */
  lemma SlugHasNoDot(x: string)
    ensures forall k | 0 <= k < |CleanForUrl(x)| :: CleanForUrl(x)[k] != '.'
  {
    CleanForUrlIsSlug(x);
  }

  /** The genius.com URL never mentions paroles.net, since the only dot in it is the
      one of "genius.com". */
  lemma GeniusUrlAvoidsParoles(a: string, t: string)
    requires forall k | 0 <= k < |a| :: a[k] != '.'
    requires forall k | 0 <= k < |t| :: t[k] != '.'
    ensures !Contains("https://genius.com/" + a + "-" + t + "-lyrics", "paroles.net")
  {
    var u := "https://genius.com/" + a + "-" + t + "-lyrics";
    forall i | 0 <= i <= |u| ensures !OccursAt(u, i, "paroles.net") {
      if i + 11 <= |u| {
        assert u[i..i + 11][0] == u[i] && u[i..i + 11][7] == u[i + 7];
        if i + 7 < 19 {
          assert u[i + 7] == "https://genius.com/"[i + 7];
        } else if i + 7 < 19 + |a| {
          assert u[i + 7] == a[i + 7 - 19];
        } else if i + 7 >= 20 + |a| && i + 7 < 20 + |a| + |t| {
          assert u[i + 7] == t[i + 7 - 20 - |a|];
        }
      }
    }
  }

  /** For slugs without a dot, the first two templates are classified as paroles.net
      and the third as genius.com. */
  lemma TemplateSites(a: string, t: string)
    requires forall k | 0 <= k < |a| :: a[k] != '.'
    requires forall k | 0 <= k < |t| :: t[k] != '.'
    ensures SiteFromUrl(UrlTemplates(a, t)[0]) == "paroles.net"
    ensures SiteFromUrl(UrlTemplates(a, t)[1]) == "paroles.net"
    ensures SiteFromUrl(UrlTemplates(a, t)[2]) == "genius.com"
  {
    var paroles := "https://www.paroles.net/";
    assert OccursAt(paroles, 12, "paroles.net");
    OccursBeforeRest(paroles, a, 12, "paroles.net");
    OccursBeforeRest(paroles + a, "/paroles-", 12, "paroles.net");
    OccursBeforeRest(paroles + a + "/paroles-", t, 12, "paroles.net");
    OccursBeforeRest(paroles + a, "/", 12, "paroles.net");
    OccursBeforeRest(paroles + a + "/", t, 12, "paroles.net");
    var genius := "https://genius.com/";
    assert OccursAt(genius, 8, "genius.com");
    OccursBeforeRest(genius, a, 8, "genius.com");
    OccursBeforeRest(genius + a, "-", 8, "genius.com");
    OccursBeforeRest(genius + a + "-", t, 8, "genius.com");
    OccursBeforeRest(genius + a + "-" + t, "-lyrics", 8, "genius.com");
    GeniusUrlAvoidsParoles(a, t);
  }

  /** The first two candidate URLs are classified as paroles.net and the third as
      genius.com, whatever the title and artist. */
  lemma CandidateUrlSites(title: string, artist: string)
    ensures SiteFromUrl(CandidateUrls(title, artist)[0]) == "paroles.net"
    ensures SiteFromUrl(CandidateUrls(title, artist)[1]) == "paroles.net"
    ensures SiteFromUrl(CandidateUrls(title, artist)[2]) == "genius.com"
  {
    SlugHasNoDot(artist);
    SlugHasNoDot(title);
    TemplateSites(CleanForUrl(artist), CleanForUrl(title));
  }

  /** The templates filled with two empty slugs. */
  lemma TemplatesOfEmptySlugs()
    ensures UrlTemplates([], []) ==
      ["https://www.paroles.net//paroles-", "https://www.paroles.net//", "https://genius.com/--lyrics"]
  {
    assert "https://www.paroles.net/" + [] + "/paroles-" + [] == "https://www.paroles.net//paroles-";
    assert "https://www.paroles.net/" + [] + "/" + [] == "https://www.paroles.net//";
    assert "https://genius.com/" + [] + "-" + [] + "-lyrics" == "https://genius.com/--lyrics";
  }

  /** A title and an artist without letters or digits still give three URLs, with
      empty slugs in them. */
  lemma EmptySlugsStillBuilt(title: string, artist: string)
    requires Alnums(FoldDiacritics(LowerCase(title))) == []
    requires Alnums(FoldDiacritics(LowerCase(artist))) == []
    ensures CandidateUrls(title, artist) ==
      ["https://www.paroles.net//paroles-", "https://www.paroles.net//", "https://genius.com/--lyrics"]
  {
    CleanForUrlEmptyIff(title);
    CleanForUrlEmptyIff(artist);
    TemplatesOfEmptySlugs();
  }

  /** The URL loop over three URLs of the two sites returns clean lyrics longer than
      50 characters from one of the two sites. */
  lemma ShapeOverSiteUrls(web: Web, urls: seq<string>)
    requires |urls| == 3 && SiteFromUrl(urls[0]) == "paroles.net"
    requires SiteFromUrl(urls[1]) == "paroles.net" && SiteFromUrl(urls[2]) == "genius.com"
    ensures FirstLongEnough(web, urls).Some? ==>
      var r := FirstLongEnough(web, urls).value;
      r.Found? && |r.lyrics| > MinLyricsLength && IsCleanText(r.lyrics)
      && (r.source == "paroles.net" || r.source == "genius.com")
  {
    FirstLongEnoughShape(web, urls);
  }

  /** A direct-search result holds clean lyrics longer than 50 characters, from
      paroles.net or genius.com. */
  lemma DirectResultShape(title: Arg, artist: Arg, web: Web)
    ensures DirectSearch(title, artist, web).Returned? <==> title.Str? && artist.Str?
    ensures Succeeded(DirectSearch(title, artist, web)) ==>
      var r := DirectSearch(title, artist, web).result.value;
      |r.lyrics| > MinLyricsLength && IsCleanText(r.lyrics)
      && (r.source == "paroles.net" || r.source == "genius.com")
  {
    if title.Str? && artist.Str? {
      CandidateUrlSites(title.s, artist.s);
      ShapeOverSiteUrls(web, CandidateUrls(title.s, artist.s));
    }
  }

  // ---------------------------------------------------------------------------
  // The strategy loop

  /** The strategy loop gives the failure result exactly when no strategy succeeds. */
  lemma FirstSuccessFail(strategies: seq<Strategy>, outcomes: Strategy -> Outcome)
    ensures FirstSuccess(strategies, outcomes) == Failed(AllStrategiesFailed)
        <==> forall k | 0 <= k < |strategies| :: !Succeeded(outcomes(strategies[k]))
  {
    var f := SuccessOf(outcomes);
    FirstSomeNone(strategies, f);
    FirstSomeFrom(strategies, f);
  }

  /** The strategy loop returns the result of the earliest strategy that succeeds. */
  lemma FirstSuccessAt(strategies: seq<Strategy>, outcomes: Strategy -> Outcome, k: nat)
    requires k < |strategies| && Succeeded(outcomes(strategies[k]))
    requires forall j | 0 <= j < k :: !Succeeded(outcomes(strategies[j]))
    ensures FirstSuccess(strategies, outcomes) == outcomes(strategies[k]).result.value
  {
    FirstSomeAt(strategies, SuccessOf(outcomes), k);
  }

  /** In the constructor's order, a search whose Google step fails and whose fallback
      succeeds gives the direct result when there is one, and the fallback's otherwise. */
  lemma DefaultOrder(outcomes: Strategy -> Outcome)
    requires !Succeeded(outcomes(GoogleSearch)) && Succeeded(outcomes(FallbackMock))
    ensures FirstSuccess(DefaultStrategies, outcomes) ==
      if Succeeded(outcomes(DirectSiteSearch)) then outcomes(DirectSiteSearch).result.value
      else outcomes(FallbackMock).result.value
  {
    if Succeeded(outcomes(DirectSiteSearch)) {
      FirstSuccessAt(DefaultStrategies, outcomes, 0);
    } else {
      FirstSuccessAt(DefaultStrategies, outcomes, 2);
    }
  }

  /** What each of the three strategies returns, one by one. */
  lemma OutcomesOfEach(title: Arg, artist: Arg, web: Web)
    ensures OutcomesOf(title, artist, web)(DirectSiteSearch) == DirectSearch(title, artist, web)
    ensures OutcomesOf(title, artist, web)(GoogleSearch) == Returned(None)
    ensures OutcomesOf(title, artist, web)(FallbackMock) == Returned(Some(GenerateTestLyrics(title, artist)))
  {
  }

  /** With the constructor's strategies the search gives the direct result when there
      is one, and the demo lyrics otherwise. */
  lemma DefaultStrategiesResult(title: Arg, artist: Arg, web: Web)
    ensures RunStrategies(DefaultStrategies, title, artist, web) ==
      if Succeeded(DirectSearch(title, artist, web)) then DirectSearch(title, artist, web).result.value
      else GenerateTestLyrics(title, artist)
  {
    OutcomesOfEach(title, artist, web);
    DefaultOrder(OutcomesOf(title, artist, web));
  }

  /** So the search always succeeds, and gives the demo lyrics when an argument is not
      a string: the failure branch cannot be reached. */
  lemma DefaultStrategiesSucceed(title: Arg, artist: Arg, web: Web)
    ensures RunStrategies(DefaultStrategies, title, artist, web).Found?
    ensures !(title.Str? && artist.Str?) ==>
      RunStrategies(DefaultStrategies, title, artist, web) == GenerateTestLyrics(title, artist)
  {
    DefaultStrategiesResult(title, artist, web);
  }

  // ---------------------------------------------------------------------------
  // The demo lyrics

  /** `b` occurs in `a + b + c` right after `a`. */
  lemma OccursAfter(a: string, b: string, c: string)
    ensures OccursAt(a + b + c, |a|, b)
  {
    assert (a + b + c)[|a|..|a| + |b|] == b;
  }

  lemma Couplet1ContainsTitle(t: string)
    ensures Contains(Couplet1(t), t)
  {
    var lead := "[Couplet 1]\n" + "Dans les rues de Paris\nJe pense \U{00E0} notre histoire\n";
    OccursAfter(lead, t, ", tu es partie\nMais je garde l'espoir");
  }

  lemma DemoContainsTitle(t: string, a: string)
    ensures Contains(DemoLyrics(t, a), t)
  {
    Couplet1ContainsTitle(t);
    var rest := "\n\n" + Refrain(t, "  ") + ("\n\n" + Couplet2(a) + ("\n\n"
      + Refrain(t, "") + ("\n\n" + Pont + ("\n\n" + Note))));
    ContainsBeforeRest(Couplet1(t), rest, t);
  }

  lemma DemoContainsArtist(t: string, a: string)
    ensures Contains(DemoLyrics(t, a), a)
  {
    OccursAfter("[Couplet 2]\n", a,
      " me chantait\nCette chanson d'amour\nMaintenant je sais\nQue l'amour dure toujours");
    ContainsAfterPrefix("\n\n", Couplet2(a), a);
    var rest := "\n\n" + Refrain(t, "") + ("\n\n" + Pont + ("\n\n" + Note));
    ContainsBeforeRest("\n\n" + Couplet2(a), rest, a);
    ContainsAfterPrefix("\n\n" + Refrain(t, "  "), "\n\n" + Couplet2(a) + rest, a);
    ContainsAfterPrefix(Couplet1(t), "\n\n" + Refrain(t, "  ") + ("\n\n" + Couplet2(a) + rest), a);
  }

  /** `generateTestLyrics` always succeeds, with the title and the artist in the lyrics. */
  lemma GenerateTestLyricsMentionsArgs(title: Arg, artist: Arg)
    ensures GenerateTestLyrics(title, artist).Found?
    ensures GenerateTestLyrics(title, artist).source == DemoSource
    ensures Contains(GenerateTestLyrics(title, artist).lyrics, Show(title))
    ensures Contains(GenerateTestLyrics(title, artist).lyrics, Show(artist))
  {
    DemoContainsTitle(Show(title), Show(artist));
    DemoContainsArtist(Show(title), Show(artist));
  }

  /** An occurrence of `word` is an occurrence of its lower-case form when case is
      ignored. */
  lemma MatchesIgnoringCase(s: string, i: nat, word: string, lower: string)
    requires OccursAt(s, i, word)
    requires |lower| == |word| && forall k | 0 <= k < |word| :: AsciiLower(word[k]) == lower[k]
    ensures OccursAtIgnoringCase(s, i, lower)
  {
    forall k | 0 <= k < |word| ensures AsciiLower(s[i + k]) == lower[k] {
      assert s[i + k] == s[i..i + |word|][k];
    }
  }

  lemma LongerWithRest(x: string, y: string)
    ensures |x + y| >= |x|
  {
  }

  /** The demo lyrics are longer than the first stanza alone, which already has more
      than 50 characters. */
  lemma DemoLyricsLong(t: string, a: string)
    ensures |DemoLyrics(t, a)| >= MinLyricsLength
  {
    assert |Couplet1(t)| >= MinLyricsLength;
    LongerWithRest(Couplet1(t), "\n\n" + Refrain(t, "  ") + ("\n\n" + Couplet2(a) + ("\n\n"
      + Refrain(t, "") + ("\n\n" + Pont + ("\n\n" + Note)))));
  }

  /** The demo lyrics pass `looksLikeLyrics`: they are long, and keep blank lines
      between stanzas. */
  lemma DemoLyricsLookLikeLyrics(t: string, a: string)
    ensures LooksLikeLyrics(DemoLyrics(t, a))
  {
    DemoLyricsHaveBlankLine(t, a);
    DemoLyricsLong(t, a);
    BlankLineLooksLikeLyrics(DemoLyrics(t, a));
  }

  lemma DemoLyricsHaveBlankLine(t: string, a: string)
    ensures HasBlankLine(DemoLyrics(t, a))
  {
    BlankLineInside(Couplet1(t), Refrain(t, "  "), "\n\n" + Couplet2(a) + ("\n\n"
      + Refrain(t, "") + ("\n\n" + Pont + ("\n\n" + Note))));
  }

  /** Unlike scraped lyrics, the demo lyrics keep blank lines between stanzas, so they
      are not in the form `cleanLyrics` produces. */
  lemma DemoLyricsKeepStanzaBreaks(t: string, a: string)
    ensures HasBlankLine(DemoLyrics(t, a))
    ensures !IsCleanText(DemoLyrics(t, a))
  {
    DemoLyricsHaveBlankLine(t, a);
    BlankLineNotClean(DemoLyrics(t, a));
  }
}
