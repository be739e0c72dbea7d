# Mondelody lyrics scraper, modelled in Dafny

This project models `LyricsScraper` from `backend/scraper.js` of Mondelody, which
finds the lyrics of a French song from its title and artist. The scraper works in
the following steps:

- **Strategies.** It tries three strategies in order: a direct search on lyrics
  sites, a search-engine stub that always gives up, and generated demo lyrics.
- **Direct search.** It builds three candidate URLs from slugs of the artist and the
  title. These are two paroles.net URLs and one genius.com URL.
- **Scraping.** For each candidate URL it fetches the page and runs a cascade of 16
  CSS selectors over it.
- **Validation.** It keeps the first element text that passes the `looksLikeLyrics`
  heuristic.
- **Cleaning.** It normalises that text with `cleanLyrics`. A URL counts as a hit
  when the cleaned lyrics are longer than 50 characters.

The model has five modules:

- `FirstMatch` (`first_match.dfy`): the search shared by the three loops of the
  scraper. It walks a list in order and stops at the first element that yields a
  result.
- `JsStrings` (`js_strings.dfy`):
  - the JavaScript whitespace class `\s`;
  - the line terminators that `.` does not match;
  - `String.prototype.trim` and `includes`.

  A `char` is a Unicode scalar value. For a character of the Basic Multilingual
  Plane this is one UTF-16 code unit, as in a JavaScript string.
- `Slugifier` (`slugifier.dfy`): `cleanForUrl`, one function per step of its
  replace chain, and a reference that joins the words of a text with hyphens.
- `LyricsText` (`lyrics_text.dfy`):
  - the four patterns of `looksLikeLyrics`;
  - `cleanLyrics`, one function per step;
  - a reference definition of `cleanLyrics` by lines;
  - a split at every kind of line break (`\r\n`, `\r`, `\n`);
  - the form of cleaned text (`IsCleanText`).
- `Scraper` (`scraper.dfy`):
  - the candidate URLs and `getSiteFromUrl`;
  - the demo lyrics of `generateTestLyrics`;
  - a specification function for each of the three loops (`FirstAccepted`,
    `FirstLongEnough` and `RunStrategies`);
  - the class `LyricsScraper`. Its methods run the three `for` loops of the source
    as `while` loops and are proved equal to those functions.

Fetching and HTML parsing are inputs:

- A `Page` maps a selector to the text of the first element it matches, or to
  `None` when nothing matches.
- A `Web` maps a URL to a loaded `Page`, or to `None` when the request fails.

A request argument is an `Arg`. It is either a string or some other JSON value. For
a non-string value, `cleanForUrl` throws because `toLowerCase` is not a function. The
strategy loop then catches the exception, so the catch at lines 40-43 is modelled.

Some behaviour of the code is easy to miss:

- **Empty slugs.** Empty slugs are not skipped, so URLs such as
  `https://www.paroles.net//paroles-` are built (`EmptySlugsStillBuilt`).
- **Slugs are not idempotent.** `cleanForUrl` deletes hyphens already in its input, so
  it is not idempotent: `"a b"` becomes `"a-b"` and then `"ab"`
  (`CleanForUrlTwice`, `CleanForUrlNotIdempotent`).
- **Stanza breaks are lost.** The comments at lines 238, 243 and 249 of
  `backend/scraper.js` speak of preserving structure and keeping double line feeds, but
  `cleanLyrics` deletes every blank line. So stanza breaks do not survive, and the
  replace at line 249 never changes anything
  (`CleanLyricsKeepsTrimmedLines`, `CleanedLyricsHaveNoBlankLine`).
- **Demo lyrics are not cleaned.** The demo lyrics keep their blank lines
  (`DemoLyricsKeepStanzaBreaks`).
- **The cascade stops early.** The cascade stops at the first accepted selector even
  when cleaning then brings the text under the length bar of the direct search
  (`AcceptedTextCanFallShort`).

## Model

| member | source | states |
|---|---|---|
| JsStrings.Trim | backend/scraper.js:275 | the trimmed text has no whitespace character at either end |
| JsStrings.TrimSplits | backend/scraper.js:206 | a string is whitespace, then its trimmed text, then whitespace |
| JsStrings.TrimIgnoresPadding | backend/scraper.js:246 | whitespace added on either side does not change the trimmed text |
| Slugifier.LowerCase | backend/scraper.js:262 | definition: `toLowerCase`, one character at a time |
| Slugifier.FoldDiacritics | backend/scraper.js:263-270 | definition: the eight diacritic classes, each accented letter replaced by its base letter |
| Slugifier.DropSpecialChars | backend/scraper.js:271 | only ASCII lower-case letters, digits and whitespace remain; text made only of those is left unchanged; the letters and digits are kept in order; every character of the result comes from the input, so a special character is deleted and not replaced |
| Slugifier.DropSpecialCharsAppend | backend/scraper.js:271 | the filter works character by character: filtering a concatenation concatenates the filtered parts |
| Slugifier.HyphenateSpaces | backend/scraper.js:272 | definition: each maximal whitespace run becomes one hyphen |
| Slugifier.CollapseHyphens | backend/scraper.js:273 | definition: each maximal hyphen run becomes one hyphen |
| Slugifier.StripEdgeHyphens | backend/scraper.js:274 | definition: a hyphen at the start is dropped, then a hyphen at the end of what is left |
| Slugifier.CleanForUrl | backend/scraper.js:260-276 | definition: the chain of replacements, then `trim` |
| Slugifier.HyphenateSpacesKeepsAlnums | backend/scraper.js:272 | turning whitespace runs into hyphens keeps the letters and digits |
| Slugifier.HyphenateSpacesShape | backend/scraper.js:272 | on letters, digits and whitespace, the result has letters, digits and hyphens only, and never two hyphens in a row |
| Slugifier.CollapseHyphensKeepsIsolated | backend/scraper.js:273 | text without two hyphens in a row is left unchanged |
| Slugifier.StripEdgeHyphensShape | backend/scraper.js:274 | after the edge hyphens are dropped, the text is a slug: no hyphen at either end, no `--` |
| Slugifier.CleanForUrlIsSlug | backend/scraper.js:260-276 | the slug has only `a`-`z`, `0`-`9` and `-`, no hyphen at either end, no `--`; its letters and digits are those of the lower-cased, diacritic-folded input, in order |
| Slugifier.HyphenateTwoWords | backend/scraper.js:272 | two words around one space become the same two words around one hyphen |
| Slugifier.HyphenateWords | backend/scraper.js:272 | the hyphenated text is the words joined by single hyphens, plus a hyphen in front exactly when the text starts with whitespace, and possibly one at the end |
| Slugifier.CleanForUrlJoinsWords | backend/scraper.js:260-276 | the slug is the words of the filtered, lower-cased, folded input (its maximal runs without whitespace) joined by single hyphens: each whitespace run between two words becomes one hyphen, and whitespace at either end leaves nothing |
| Slugifier.CleanForUrlEmptyIff | backend/scraper.js:260-276 | the slug is empty exactly when the lower-cased, folded input has no ASCII letter or digit |
| Slugifier.LowerAndFoldKeepPlain | backend/scraper.js:262-270 | lower-casing and diacritic folding leave letters, digits, hyphens and spaces unchanged |
| Slugifier.CleanForUrlOfSlugChars | backend/scraper.js:271-275 | on text made of `a`-`z`, `0`-`9` and `-`, the slug is that text with its hyphens deleted |
| Slugifier.CleanForUrlTwice | backend/scraper.js:271-274 | a second application deletes the slug's hyphens; it changes nothing exactly when the slug has no hyphen |
| Slugifier.CleanForUrlNotIdempotent | backend/scraper.js:271-274 | for any two letters or digits `a` and `b`, `"a b"` gives `"a-b"`, which gives `"ab"` |
| LyricsText.HasLineBetweenBreaks | backend/scraper.js:229 | definition: two line feeds with no line terminator between them |
| LyricsText.HasSongWord | backend/scraper.js:230 | definition: `couplet`, `refrain`, `verse` or `chorus` occurs, ASCII letter case aside |
| LyricsText.HasBlankLine | backend/scraper.js:231 | definition: two line feeds with only whitespace between them |
| LyricsText.HasTwoLongLines | backend/scraper.js:232 | definition: a line feed or carriage return with ten characters other than line terminators right before it and right after it |
| LyricsText.LooksLikeLyrics | backend/scraper.js:224-236 | definition: at least 50 characters, and one of the four patterns is found |
| LyricsText.ReplaceCrLf | backend/scraper.js:241 | definition: each `\r\n` becomes `\n`, scanning from the front |
| LyricsText.ReplaceCr | backend/scraper.js:242 | definition: each `\r` becomes `\n` |
| LyricsText.UnifyLineEndings | backend/scraper.js:241-242 | no carriage return is left |
| LyricsText.UnifyStep | backend/scraper.js:241-242 | scanning from the front, `\r\n` gives one `\n`, a lone `\r` gives one `\n`, and any other character is kept |
| LyricsText.LinesOfUnified | backend/scraper.js:241-245 | after the two replacements, `split('\n')` gives exactly the lines of the text when `\r\n`, a lone `\r` and `\n` each end one line (`SplitLineBreaks`) |
| LyricsText.UnifyLineEndingsKeeps | backend/scraper.js:241-242 | text without a carriage return is left unchanged |
| LyricsText.CollapseBlankLines | backend/scraper.js:243 | definition: a line feed whose whitespace run holds three or more line feeds starts a match, which is replaced by two line feeds up to the last line feed of the run |
| LyricsText.LastBreakInRun | backend/scraper.js:243 | the index found is a line feed of the leading whitespace run, and everything up to it is whitespace |
| LyricsText.LastBreakInRunIsLast | backend/scraper.js:243 | the match of `\n\s*\n\s*\n+` at a line feed ends at the last line feed of the leading whitespace run: no line feed of the run follows the index found, and no index is found exactly when the run has no line feed |
| LyricsText.CollapseBlankLinesKeepsLines | backend/scraper.js:243 | collapsing blank-line runs changes no trimmed non-empty line, nor their order |
| LyricsText.KeptLinesOfTrim | backend/scraper.js:244 | trimming the whole text changes no trimmed non-empty line |
| LyricsText.Lines | backend/scraper.js:245 | `split('\n')` gives at least one piece, and no piece holds a line feed |
| LyricsText.UnlinesLines | backend/scraper.js:245-248 | joining the pieces of a split with line feeds gives back the text |
| LyricsText.LinesUnlines | backend/scraper.js:245-248 | splitting lines without a line feed after joining them gives back the lines |
| LyricsText.TrimEach | backend/scraper.js:246 | definition: every line trimmed, none added or removed |
| LyricsText.DropEmpty | backend/scraper.js:247 | the kept lines are non-empty lines of the input |
| LyricsText.Unlines | backend/scraper.js:248 | definition: the lines joined with line feeds |
| LyricsText.CollapseLineFeedRuns | backend/scraper.js:249 | definition: each run of three or more line feeds becomes two |
| LyricsText.CleanLyrics | backend/scraper.js:239-250 | definition: the chain of lines 241-249 |
| LyricsText.JoinedLinesUntouched | backend/scraper.js:249 | the replace at line 249 leaves good lines joined by line feeds unchanged |
| LyricsText.CleanLyricsKeepsTrimmedLines | backend/scraper.js:239-250 | `cleanLyrics(x)` is x with unified line endings, split into lines, each line trimmed, empty lines dropped, joined with single line feeds; equally, x split at every `\r\n`, `\r` and `\n`, each line trimmed, empty lines dropped, joined with single line feeds |
| LyricsText.CleanLyricsIsClean | backend/scraper.js:239-250 | the result has no carriage return, no whitespace at either end, and every line feed sits between two characters that are not whitespace |
| LyricsText.CleanLyricsFixedPoints | backend/scraper.js:239-250 | `cleanLyrics` leaves a text unchanged exactly when the text is in that clean form |
| LyricsText.CleanLyricsIdempotent | backend/scraper.js:239-250 | cleaning twice is cleaning once |
| LyricsText.CleanTextNoDoubleLineFeed | backend/scraper.js:239-250 | clean text never has two line feeds in a row |
| LyricsText.CleanTextHasNoBlankLine | backend/scraper.js:231 | the blank-line pattern `\n\s*\n` never matches clean text |
| LyricsText.CleanedLyricsHaveNoBlankLine | backend/scraper.js:231-247 | the blank-line pattern never matches the output of `cleanLyrics` |
| LyricsText.CleanLyricsDropsLinePadding | backend/scraper.js:246-248 | whitespace at the end of a line is dropped: two good lines stay, joined by one line feed |
| Scraper.SiteFromUrl | backend/scraper.js:253-257 | definition: `paroles.net` if the URL contains it, else `genius.com` if it contains that, else `Unknown site` |
| Scraper.UrlTemplates | backend/scraper.js:57-66 | definition: the three URL templates, for an artist slug and a title slug |
| Scraper.CandidateUrls | backend/scraper.js:57-66 | definition: the templates filled with the slugs of the artist and the title |
| Scraper.TemplateSites | backend/scraper.js:57-66 | for slugs without a dot, the two paroles.net templates are classified as paroles.net and the genius.com template as genius.com |
| Scraper.CandidateUrlSites | backend/scraper.js:253-257 | `getSiteFromUrl` gives paroles.net for the first two candidate URLs and genius.com for the third, whatever the title and artist |
| Scraper.EmptySlugsStillBuilt | backend/scraper.js:59-63 | a title and artist without letters or digits still give the three URLs, with empty slugs |
| Scraper.DemoLyrics | backend/scraper.js:117-147 | definition: the demo template, its five stanzas and the note separated by blank lines |
| Scraper.GenerateTestLyrics | backend/scraper.js:113-154 | definition: a success holding the demo template filled in with the title and the artist |
| Scraper.GenerateTestLyricsMentionsArgs | backend/scraper.js:113-154 | the demo result is a success with source `Demo lyrics (development mode)`, and its lyrics contain the title and the artist |
| Scraper.DemoLyricsLong | backend/scraper.js:117-147 | the demo lyrics are at least 50 characters long, whatever the title and artist |
| Scraper.DemoLyricsHaveBlankLine | backend/scraper.js:117-147 | the demo lyrics hold a blank line between stanzas |
| Scraper.DemoLyricsLookLikeLyrics | backend/scraper.js:117-147 | being long and holding a blank line, the demo lyrics would pass `looksLikeLyrics` |
| Scraper.DemoLyricsKeepStanzaBreaks | backend/scraper.js:117-147 | the demo lyrics keep blank lines, so they are not in the form `cleanLyrics` produces |
| FirstMatch.FirstSomeNone | backend/scraper.js:202-220 | a first-match loop finds nothing exactly when no element yields a result |
| FirstMatch.FirstSomeAt | backend/scraper.js:202-212 | a first-match loop returns the result of the earliest element that yields one |
| FirstMatch.FirstSomeIgnoresLater | backend/scraper.js:209-212 | elements after the first that yields a result are never consulted |
| Scraper.FirstAcceptedNone | backend/scraper.js:202-220 | the cascade gives `null` exactly when no selector's trimmed text looks like lyrics |
| Scraper.FirstAcceptedAt | backend/scraper.js:202-212 | the cascade gives the cleaned trimmed text of the earliest selector whose text looks like lyrics |
| Scraper.FirstAcceptedIgnoresLater | backend/scraper.js:209-212 | selectors after the accepted one are never consulted: pages that agree up to it give the same result |
| Scraper.FirstAcceptedIsClean | backend/scraper.js:211 | what the cascade returns is in clean form |
| Scraper.ShortTextsGiveNothing | backend/scraper.js:225 | a page whose matched texts are all shorter than 50 characters after trimming gives `null`, whatever they contain |
| Scraper.PaddedVerseLooksLikeLyrics | backend/scraper.js:224-236 | `verse`, 44 whitespace characters, a line feed and `x` are 51 characters that pass `looksLikeLyrics` |
| Scraper.AcceptedTextCanFallShort | backend/scraper.js:73 | that text, in the first selector, ends the cascade; it cleans to 7 characters, so the URL is rejected as too short |
| Scraper.FirstLongEnoughNone | backend/scraper.js:68-86 | the URL loop gives `null` exactly when no URL's scraped lyrics are longer than 50 characters |
| Scraper.FirstLongEnoughAt | backend/scraper.js:68-79 | the URL loop gives the lyrics of the earliest URL whose lyrics are longer than 50 characters, with that URL's site |
| Scraper.FirstLongEnoughShape | backend/scraper.js:73-78 | a result of the URL loop has clean lyrics longer than 50 characters and the site of one of the URLs |
| Scraper.DirectResultShape | backend/scraper.js:53-87 | the direct search returns exactly when both arguments are strings; a success has clean lyrics longer than 50 characters from paroles.net or genius.com |
| Scraper.TryGoogleSearch | backend/scraper.js:90-111 | definition: always `null`; the search terms are built only to be logged |
| Scraper.FirstSuccessFail | backend/scraper.js:18-49 | the strategy loop gives the failure result exactly when no strategy succeeds |
| Scraper.FirstSuccessAt | backend/scraper.js:18-38 | the strategy loop gives the result of the earliest successful strategy |
| Scraper.DefaultOrder | backend/scraper.js:7-38 | in the constructor's order, when the search-engine step fails and the demo step succeeds, the loop gives the direct result if there is one and the demo result otherwise |
| Scraper.DefaultStrategiesResult | backend/scraper.js:7-49 | with the constructor's strategies, the search gives the direct result when there is one and the demo lyrics otherwise |
| Scraper.DefaultStrategiesSucceed | backend/scraper.js:7-49 | with the constructor's strategies the search always succeeds, and it gives the demo lyrics when an argument is not a string |
| Scraper.LyricsScraper.constructor | backend/scraper.js:5-12 | the strategies are direct search, search engine and demo lyrics, in that order |
| Scraper.LyricsScraper.ExtractLyricsFromPage | backend/scraper.js:186-221 | the selector loop returns the cascade's result, which is clean |
| Scraper.LyricsScraper.ScrapePage | backend/scraper.js:157-183 | a failed request gives `null`; a loaded page gives the cascade's result, which is clean |
| Scraper.LyricsScraper.TryDirectSiteSearch | backend/scraper.js:53-87 | the URL loop over the three candidate URLs returns the first long-enough result or `null`; non-string arguments throw |
| Scraper.LyricsScraper.RunStrategy | backend/scraper.js:22-33 | each strategy name runs its own search |
| Scraper.LyricsScraper.SearchFrenchLyrics | backend/scraper.js:15-50 | the strategy loop returns the first successful result, skipping strategies that throw, and the failure result when none succeeds |

## Left out

- The HTTP request of `scrapePage` (lines 161-170), with its headers, timeout and redirect limit, is network I/O. It is the `Web` input. Every failure is `None`, and the 404 case differs only in its log message.
- `cheerio.load` and CSS selector matching (lines 172, 204) come from a foreign library. They are the `Page` input. The selector strings are kept only as the order of the cascade.
- A selector that throws (lines 214-216) is folded into the `Page` input's `None`.
- The catch around one URL (lines 80-83) is folded into the `Web` input: `scrapePage` catches its own errors and the rest cannot throw.
- The `siteName` parameter of `scrapePage` and `extractLyricsFromPage` is only logged, so it is left out.
- `console.log` logging and `async`/`await` are left out. The pipeline is sequential.
- The `searchTerms` array of `tryGoogleSearch` (lines 99-106) is built and logged but never used. `TryGoogleSearch` is the constant `None`.
- How a non-string argument prints in a template literal is carried with the argument (`Arg.NonStr`). A value whose conversion to text throws is not modelled.
- LowerChar: `toLowerCase` is exact only for characters whose lower-case form can survive the filter of line 271. Every other character is kept as it is; its lower-case form is deleted by that filter either way.
- The `!text` test of line 225 is not modelled separately. The text is always a string there, and the empty string fails the length test.
- Text is modelled as code points of the Basic Multilingual Plane. A character outside it (an emoji, say) is two UTF-16 code units in JavaScript but one `char` here. So the length tests of lines 73 and 225 and the `.` of the patterns at lines 229 and 232 count it differently. Lone surrogates cannot be represented.
- `backend/server.js` (the HTTP endpoint, with its 400 and 404 responses) is not part of this model.
- `src/App.jsx` (the user interface and its mock lyrics) is not part of this model.
