# Weibo crawler core, modelled in Dafny

This project models the core of the `flip` crawler server's Weibo support in Dafny:

- **The mobile API client**, `WeiboClient` in client.ts:
  - the `{ok, data, msg}` envelope check;
  - request construction;
  - the liveness probe;
  - the cookie refresh from a browser jar;
  - the two paginated crawls: a note's comments, and a creator's timeline;
  - the image-URL rewrite;
  - the extraction of the `fid`/`lfid` container ids from the `M_WEIBOCN_PARAMS` Set-Cookie entry, and the creator profile built from them.
- **The crawler utilities**:
  - the cookie jar → `Cookie` header and dictionary conversion;
  - the reverse `k=v; k=v` parser;
  - the interaction-counter number extraction;
  - the proxy formatting;
  - the HTML tag stripper.
- **The login object**, `WeiboLogin`:
  - the dispatch on the login type;
  - the logged-in cookie check and its bounded fixed-interval poll;
  - the QR-code flow and its exits;
  - the phone stub;
  - the cookie-string login.
- **The `create-entrypoints.js` build script**:
  - the generated re-export files;
  - the tsconfig and package-manifest rewrites;
  - the file writes and `.gitignore`;
  - the `pre` clean-up.

## Modelling choices

The HTTP transport and the browser are oracles.

- **Crawls:** a crawl is given the sequence of answers the transport would give (`seq<Transport>`). The k-th answer answers the k-th request. A crawl that needs more answers than it has stops with `unanswered` set, which is an artefact of the model.
- **Browser:** the browser's cookie jar after a visit is a parameter. So is the jar read at the j-th login check (`polls: nat -> seq<Cookie>`).
- **Side effects:** the crawl callbacks and the sleeps are recorded (`delivered`, `sleeps`), not performed.

The two crawl loops are written as `while` loops in `Client.WeiboClient`. Each is proved to compute exactly what a state machine in `WeiboCrawl` computes (`CrawlComments`, `CrawlTimeline`). The properties the source promises are proved about those state machines.

Objects that the source mutates are classes with `modifies` frames:

- the client's `headers`/`cookieDict`;
- the browser context's visits and added cookies;
- the build script's workspace of files.

JSON bodies are a `Json` datatype with JavaScript truthiness, `?.` property reads and the loose `>` comparison. The comparison uses JavaScript's `ToNumber`: surrounding white space, a sign, a fraction, an exponent, `0x`/`0o`/`0b` integers and `Infinity` are read as JavaScript reads them, and an array converts through its string form.

The model follows the code:

- **The timeline crawl has no `maxCount`.** It stops only when the counter reaches the reported total, when a page has no `cards`, or when it throws.
- **The timeline crawl sleeps after every kept page, the last included.**
- **The comment crawl checks the budget only at the top of the loop.** With `maxCount` 10 and a first page of 8 comments whose `max_id` is non-zero, it makes a second request.
- **The budget bound holds only with sub-comments switched off.** Sub-comments are appended untruncated.

## Model

Paths are relative to the repository root.

| member | source | states |
|---|---|---|
| JsValue.IntStringToNumber | packages/server/src/crawlers/mediaPlatforms/weibo/client.ts:177 | the decimal text of any integer, sign included, converts back to that integer |
| JsValue.SignedExponentLiteral | packages/server/src/crawlers/mediaPlatforms/weibo/client.ts:177 | `"-1e3"` converts to -1000 |
| JsValue.HexLiteral | packages/server/src/crawlers/mediaPlatforms/weibo/client.ts:177 | `"0x1F"` converts to 31 |
| JsValue.NonFiniteLiterals | packages/server/src/crawlers/mediaPlatforms/weibo/client.ts:177 | `"+Infinity"` and `"-Infinity"` convert to the infinities; `"1e"` converts to `NaN` |
| JsValue.NumberFormsAgree | packages/server/src/crawlers/mediaPlatforms/weibo/client.ts:411 | a number, its decimal string, and a one-element array of either compare alike |
| JsValue.NumericSum | packages/server/src/crawlers/mediaPlatforms/weibo/client.ts:206 | with numbers on both sides, `a + n > k` is plain integer comparison |
| WeiboApi.DecodeEnvelope | packages/server/src/crawlers/mediaPlatforms/weibo/client.ts:72-79 | succeeds exactly when `ok` is 0 or 1. The payload is `data` when truthy, else `{}`, so it is never falsy. A refusal is a `DataFetchError` carrying `msg`, or "unknown error" when `msg` is falsy |
| WeiboApi.EnvelopeRoundTrip | packages/server/src/crawlers/mediaPlatforms/weibo/client.ts:72-79 | decoding an envelope built with `ok` 0/1 gives back its payload (or `{}` without one). With any other `ok` it gives its message (or "unknown error") |
| WeiboApi.Request | packages/server/src/crawlers/mediaPlatforms/weibo/client.ts:51-84 | a transport rejection is passed on unchanged. With `return_response` the raw response comes back unchecked. Otherwise it succeeds exactly when `ok` is 0 or 1, with the envelope's payload or error |
| WeiboApi.MergeHeaders | packages/server/src/crawlers/mediaPlatforms/weibo/client.ts:93 | custom headers are laid over the client's: the keys are the union, custom values win, the others are kept |
| WeiboApi.GetRequest | packages/server/src/crawlers/mediaPlatforms/weibo/client.ts:87-96 | a GET of host + uri, with the given query, the merged headers and the timeout in milliseconds |
| WeiboApi.Pong | packages/server/src/crawlers/mediaPlatforms/weibo/client.ts:109-127 | never throws. True exactly when the reply is a valid envelope whose `data.login` is truthy |
| WeiboApi.KeywordRequest | packages/server/src/crawlers/mediaPlatforms/weibo/client.ts:154-167 | the search request carries `containerid = 100103type=<type>&q=<keyword>` and the page; the caller passes both (see Left out for the defaults) |
| WeiboApi.NoteCommentsRequest | packages/server/src/crawlers/mediaPlatforms/weibo/client.ts:170-185 | the comments request goes to `/comments/hotflow`, with `id` and `mid` set to the note and the note's detail page as `Referer` |
| WeiboApi.CursorSentOnlyWhenPositive | packages/server/src/crawlers/mediaPlatforms/weibo/client.ts:177-179 | `max_id` is in the query exactly when the cursor compares greater than 0, and is then the cursor |
| WeiboApi.CreatorNotesRequest | packages/server/src/crawlers/mediaPlatforms/weibo/client.ts:364-374 | the timeline request carries the creator, the container id and the `since_id` cursor |
| WeiboApi.CreatorInfoRequest | packages/server/src/crawlers/mediaPlatforms/weibo/client.ts:340-348 | the profile request carries the creator and the `fid` container id |
| WeiboApi.StripHttps | packages/server/src/crawlers/mediaPlatforms/weibo/client.ts:276 | only a leading `https://` is removed |
| WeiboApi.PathPiecesAreLargePath | packages/server/src/crawlers/mediaPlatforms/weibo/client.ts:279-288 | the path loop's result equals the closed form `LargeImagePath` |
| WeiboApi.LongPathPieces | packages/server/src/crawlers/mediaPlatforms/weibo/client.ts:279-288 | with three or more segments, the path is the segments joined by `/` with segment 1 replaced by `large` |
| WeiboApi.ThreeSegmentImage | packages/server/src/crawlers/mediaPlatforms/weibo/client.ts:276-289 | `https://host/size/file` is fetched as `<proxy>host/large/file` |
| WeiboApi.TwoSegmentImage | packages/server/src/crawlers/mediaPlatforms/weibo/client.ts:276-289 | with exactly two segments the file name is lost: `<proxy>host/large/` |
| WeiboApi.ImageUri | packages/server/src/crawlers/mediaPlatforms/weibo/client.ts:276-289 | the image is fetched through the proxy host. The path is `LargeImagePath` of the segments, shown by `PathPiecesAreLargePath`, `LongPathPieces`, `ThreeSegmentImage` and `TwoSegmentImage` |
| WeiboApi.ParamsCookieValue | packages/server/src/crawlers/mediaPlatforms/weibo/client.ts:321 | when the first `;`-piece has no `=`, the value read is the text "undefined" |
| WeiboApi.FormRoundTrip | packages/server/src/crawlers/mediaPlatforms/weibo/client.ts:322-326 | reading a name back from encoded pairs gives the value of its first occurrence, or nothing when the name is absent |
| WeiboApi.FindParamsHeader | packages/server/src/crawlers/mediaPlatforms/weibo/client.ts:315 | finds the first Set-Cookie entry containing `M_WEIBOCN_PARAMS=`: no entry before it contains it. It finds none exactly when no entry contains it |
| WeiboApi.ContainerFromSetCookie | packages/server/src/crawlers/mediaPlatforms/weibo/client.ts:309-327 | fails with "get containerid failed" when there is no Set-Cookie header or no `M_WEIBOCN_PARAMS` entry. Otherwise it throws a `URIError` exactly when `decodeURIComponent` rejects the cookie value, and it succeeds with `fid`/`lfid` read from the decoded form, `''` when absent |
| WeiboApi.ContainerRoundTrip | packages/server/src/crawlers/mediaPlatforms/weibo/client.ts:309-327 | an `M_WEIBOCN_PARAMS=<encoded>;…` entry whose decoded value is `fid=F&lfid=L` yields exactly `F` and `L` |
| WeiboApi.MalformedParamsThrow | packages/server/src/crawlers/mediaPlatforms/weibo/client.ts:321 | an `M_WEIBOCN_PARAMS` value that `decodeURIComponent` rejects makes the parse throw a `URIError` |
| WeiboApi.FirstWeiboTab | packages/server/src/crawlers/mediaPlatforms/weibo/client.ts:352-357 | the tab search can only fail with a `TypeError` |
| WeiboApi.FirstWeiboTabIsFirst | packages/server/src/crawlers/mediaPlatforms/weibo/client.ts:350-357 | the search returns the container id of the first `weibo` tab, when only skipped tabs come before it. It returns nothing exactly when every tab is skipped |
| WeiboApi.WeiboTabOf | packages/server/src/crawlers/mediaPlatforms/weibo/client.ts:350-357 | a falsy `tabsInfo.tabs` is not searched; an array of tabs is searched with `FirstWeiboTab` |
| WeiboApi.CreatorInfo | packages/server/src/crawlers/mediaPlatforms/weibo/client.ts:360 | the profile's own properties, with `fid_container_id` and `lfid_container_id` laid on top |
| WeiboApi.CreatorProfile | packages/server/src/crawlers/mediaPlatforms/weibo/client.ts:335-360 | empty container ids fail before any request. A rejected profile request fails with its reason. A success carries `fid` |
| WeiboApi.ProfileTakesWeiboTab | packages/server/src/crawlers/mediaPlatforms/weibo/client.ts:350-360 | a profile with a weibo tab gets that tab's container id as `lfid` |
| WeiboApi.ProfileWithoutTabs | packages/server/src/crawlers/mediaPlatforms/weibo/client.ts:350-360 | a profile without tabs keeps the cookie's `lfid` |
| WeiboCrawl.SubCommentsOf | packages/server/src/crawlers/mediaPlatforms/weibo/client.ts:229-232 | with the sub-comment feature off, nothing is found or delivered |
| WeiboCrawl.SubCommentsAreArrayFields | packages/server/src/crawlers/mediaPlatforms/weibo/client.ts:234-244 | the scan throws exactly when some comment is nullish. Otherwise it delivers exactly the array-valued `comments` fields in order, and returns their concatenation |
| WeiboCrawl.Truncate | packages/server/src/crawlers/mediaPlatforms/weibo/client.ts:206-208 | the check `result.length + commentList.length > maxCount` uses JavaScript `+` and `>`. An array or string that passes it is cut to `maxCount - result.length` items. Any other value that passes it throws a `TypeError`, since it has no `slice`. A page that does not pass it is kept whole |
| WeiboCrawl.CommentStep | packages/server/src/crawlers/mediaPlatforms/weibo/client.ts:199-218 | one round adds exactly one request, never drops what was collected and sleeps at most once. The cursor is stated by `CursorOfStep`, the budget by `StepWithinBudget` and `TruncatedPage`, and the ledger by `StepKeepsLedger` |
| WeiboCrawl.RunComments | packages/server/src/crawlers/mediaPlatforms/weibo/client.ts:198-219 | the loop ends only when its guard fails, something throws, or the answers run out |
| WeiboCrawl.CrawlComments | packages/server/src/crawlers/mediaPlatforms/weibo/client.ts:188-221 | the crawl ends with the loop guard false. If it did not throw, it slept once per answered request and its result is the concatenation of what the callback received. Without sub-comments it collects at most `maxCount` comments, or none |
| WeiboCrawl.NoBudgetNoRequest | packages/server/src/crawlers/mediaPlatforms/weibo/client.ts:194-198 | with `maxCount <= 0` no request is made and the result is empty |
| WeiboCrawl.FirstCommentRequest | packages/server/src/crawlers/mediaPlatforms/weibo/client.ts:196-199 | the cursor starts at -1, so the first request carries no `max_id` |
| WeiboCrawl.CursorOfStep | packages/server/src/crawlers/mediaPlatforms/weibo/client.ts:199-203 | each request carries the cursor the previous answer left. An answer without a truthy `max_id` sets the cursor to 0 and ends the loop |
| WeiboCrawl.TruncatedPage | packages/server/src/crawlers/mediaPlatforms/weibo/client.ts:206-214 | an overrunning page is cut to exactly the remaining budget. The callback receives the cut page, which is also what is appended |
| WeiboCrawl.SliceOfObjectThrows | packages/server/src/crawlers/mediaPlatforms/weibo/client.ts:206-213 | a `data` object whose numeric `length` overruns the budget throws before the callback, the pause or any push |
| WeiboCrawl.StepWithinBudget | packages/server/src/crawlers/mediaPlatforms/weibo/client.ts:206-214 | without sub-comments, one round never takes the result past `maxCount` |
| WeiboCrawl.CommentsWithinBudget | packages/server/src/crawlers/mediaPlatforms/weibo/client.ts:198-219 | without sub-comments, the whole crawl collects at most `maxCount` comments (or none) |
| WeiboCrawl.StepKeepsLedger | packages/server/src/crawlers/mediaPlatforms/weibo/client.ts:210-218 | one round keeps the ledger: one sleep per answered request, and a result that is the concatenation of what the callback received |
| WeiboCrawl.CommentsLedger | packages/server/src/crawlers/mediaPlatforms/weibo/client.ts:198-219 | the whole crawl keeps that ledger, so it slept once per fetched page, the last included |
| WeiboCrawl.FilterNoteCards | packages/server/src/crawlers/mediaPlatforms/weibo/client.ts:402 | the filter keeps only `card_type === 9` cards, never more than it was given, and can only fail with a `TypeError` |
| WeiboCrawl.FilterNoteCardsSplits | packages/server/src/crawlers/mediaPlatforms/weibo/client.ts:402 | the filter distributes over concatenation, so the kept cards are in their original relative order |
| WeiboCrawl.FilterNoteCardsTotal | packages/server/src/crawlers/mediaPlatforms/weibo/client.ts:402 | the filter fails exactly when some card is `null`/`undefined` |
| WeiboCrawl.FilterOneCard | packages/server/src/crawlers/mediaPlatforms/weibo/client.ts:402 | a single card is kept exactly when it is a note card |
| WeiboCrawl.FilterExample | packages/server/src/crawlers/mediaPlatforms/weibo/client.ts:402 | from cards of types 9, other, 9, other, the two note cards are kept, in order |
| WeiboCrawl.TimelineStep | packages/server/src/crawlers/mediaPlatforms/weibo/client.ts:389-411 | one round adds exactly one request, never drops what was collected and sleeps at most once. The ledger is stated by `TimelineStepKeepsLedger` and an accepted page by `PageStep` |
| WeiboCrawl.RunTimeline | packages/server/src/crawlers/mediaPlatforms/weibo/client.ts:388-411 | the loop ends only when `notesHasMore` is false, a `break` is taken, something throws, or the answers run out |
| WeiboCrawl.CrawlTimeline | packages/server/src/crawlers/mediaPlatforms/weibo/client.ts:377-414 | the crawl ends with the loop guard false. Its result is the delivered pages in order and holds only note cards. It slept once per kept page, and its counter is 10 per page |
| WeiboCrawl.TimelineStepKeepsLedger | packages/server/src/crawlers/mediaPlatforms/weibo/client.ts:399-411 | one round keeps the ledger: the result is the delivered pages in order, only note cards, one sleep per page, a counter of 10 per page |
| WeiboCrawl.TimelineResultIsPages | packages/server/src/crawlers/mediaPlatforms/weibo/client.ts:388-413 | the whole timeline crawl keeps that ledger |
| WeiboCrawl.CardlessPageEndsCrawl | packages/server/src/crawlers/mediaPlatforms/weibo/client.ts:394-398 | an answer without truthy `cards` ends the crawl with the result so far and no sleep |
| WeiboCrawl.Pages | packages/server/src/crawlers/mediaPlatforms/weibo/client.ts:409-411 | at least one page is always fetched |
| WeiboCrawl.PagesThreshold | packages/server/src/crawlers/mediaPlatforms/weibo/client.ts:409-411 | after m pages the counter `10 m` stays below the total exactly while m < max(1, ⌈T/10⌉) |
| WeiboCrawl.PageStep | packages/server/src/crawlers/mediaPlatforms/weibo/client.ts:399-411 | an accepted page adds one request and one sleep, and 10 to the counter. More pages follow exactly while the counter is below the reported total. A missing or falsy total counts as 0, and a numeric string counts as its number |
| WeiboCrawl.TimelinePageCount | packages/server/src/crawlers/mediaPlatforms/weibo/client.ts:384-411 | with a constant reported total T (0 if missing or falsy; read as a number, so `"25"` is 25), exactly max(1, ⌈T/10⌉) pages are fetched and slept after, whatever they hold |
| WeiboCrawl.ReportedTotal | packages/server/src/crawlers/mediaPlatforms/weibo/client.ts:409-411 | the reported total reads as 0 when it is missing, null, empty or zero, and as T when it is a total sent as the number T or as its decimal text |
| Client.WeiboClient.constructor | packages/server/src/crawlers/mediaPlatforms/weibo/client.ts:42-48 | the fields are taken from the options; a missing timeout is 10 |
| Client.WeiboClient.UpdateCookies | packages/server/src/crawlers/mediaPlatforms/weibo/client.ts:130-151 | visits the creator page. It fails, changing nothing, exactly when no cookie is named `M_WEIBOCN_PARAMS`. Otherwise `Cookie` becomes the jar's header and the dictionary the jar's last-value map |
| Client.WeiboClient.GetCommentsAllSubComments | packages/server/src/crawlers/mediaPlatforms/weibo/client.ts:224-245 | computes `SubCommentsOf`. When enabled and not thrown, it delivers the array `comments` fields and returns their concatenation |
| Client.WeiboClient.GetNoteAllComments | packages/server/src/crawlers/mediaPlatforms/weibo/client.ts:188-221 | the loop computes `CrawlComments`. It stays within budget without sub-comments. When it does not throw, it sleeps once per request and its result is what the callback received, in order |
| Client.WeiboClient.CommentPage | packages/server/src/crawlers/mediaPlatforms/weibo/client.ts:199-218 | one loop round is exactly `CommentStep` |
| Client.WeiboClient.GetNoteImage | packages/server/src/crawlers/mediaPlatforms/weibo/client.ts:274-302 | fetches `ImageUri(imageUrl)` with the client's headers. The body is returned when the status text is "OK", `null` otherwise |
| Client.WeiboClient.ImagePath | packages/server/src/crawlers/mediaPlatforms/weibo/client.ts:276-288 | the path loop builds `LargeImagePath` of the segments |
| Client.WeiboClient.GetCreatorContainerInfo | packages/server/src/crawlers/mediaPlatforms/weibo/client.ts:304-328 | a failed cookie refresh ends it before any request. Otherwise it sends one profile-page request with the refreshed headers, and parses its Set-Cookie entries |
| Client.WeiboClient.GetCreatorInfoById | packages/server/src/crawlers/mediaPlatforms/weibo/client.ts:331-361 | the result is `CreatorProfile` of the container ids. With the params cookie, the first request is the profile-page visit, and a second request, carrying `fid`, is sent exactly when the container lookup succeeds with both ids non-empty. Without the cookie nothing is sent |
| Client.WeiboClient.FindWeiboTab | packages/server/src/crawlers/mediaPlatforms/weibo/client.ts:350-357 | the tab loop computes `FirstWeiboTab` |
| Client.WeiboClient.GetAllNotesByCreatorId | packages/server/src/crawlers/mediaPlatforms/weibo/client.ts:377-414 | the loop computes `CrawlTimeline`. Its result is the concatenation of the delivered pages, holds only note cards, and it slept once per kept page |
| Client.WeiboClient.TimelinePage | packages/server/src/crawlers/mediaPlatforms/weibo/client.ts:389-411 | one loop round is exactly `TimelineStep` |
| Client.ContainerOfReply | packages/server/src/crawlers/mediaPlatforms/weibo/client.ts:307-327 | a rejection fails with its reason; an answer is parsed from its Set-Cookie entries |
| CrawlerUtil.ConvertCookies | packages/server/src/utils/crawlers/crawler_util.ts:187-200 | a missing or empty jar gives `""` and `{}`. Otherwise it gives the `"; "`-joined `name=value` header and the name-to-value dictionary |
| CrawlerUtil.CookieDictKeys | packages/server/src/utils/crawlers/crawler_util.ts:195-197 | the dictionary's keys are exactly the jar's names |
| CrawlerUtil.CookieDictLast | packages/server/src/utils/crawlers/crawler_util.ts:195-197 | each name maps to the value of its last occurrence |
| CrawlerUtil.PieceEntry | packages/server/src/utils/crawlers/crawler_util.ts:215-217 | a kept piece has a non-empty key and value, both free of `=` |
| CrawlerUtil.ConvertStrCookieToDict | packages/server/src/utils/crawlers/crawler_util.ts:207-222 | the loop computes `StrCookieDict`; the empty string gives `{}` |
| CrawlerUtil.StrCookieDict | packages/server/src/utils/crawlers/crawler_util.ts:207-222 | every kept key and value is non-empty and free of `;` and `=`. Reading back a jar's header is stated by `CookieRoundTrip`, and `k=v=w` by `SecondEqualsDropsTail` |
| CrawlerUtil.SecondEqualsDropsTail | packages/server/src/utils/crawlers/crawler_util.ts:215-217 | `k=v=w` keeps `k` ↦ `v` |
| CrawlerUtil.CookieRoundTrip | packages/server/src/utils/crawlers/crawler_util.ts:192-218 | parsing the header of a jar of plain tokens gives back the jar's dictionary |
| CrawlerUtil.FirstDigitRun | packages/server/src/utils/crawlers/crawler_util.ts:234 | the match is a non-empty digit run, and is absent exactly when there is no digit |
| CrawlerUtil.MatchInteractInfoCount | packages/server/src/utils/crawlers/crawler_util.ts:229-240 | 0 (a `nat`) for a string without digits |
| CrawlerUtil.NumberInText | packages/server/src/utils/crawlers/crawler_util.ts:229-239 | a decimal number after digit-free text and before a non-digit is read back exactly |
| CrawlerUtil.FormatProxyInfo | packages/server/src/utils/crawlers/crawler_util.ts:271-307 | both results are null exactly for an empty protocol or ip or a zero port. Otherwise: `server = protocol + ip + ":" + port`; credentials exactly when user and password are both non-empty; the axios protocol has its first `://` removed; host and port are copied |
| CrawlerUtil.SchemeOfProtocol | packages/server/src/utils/crawlers/crawler_util.ts:290 | the axios protocol of `scheme://` is the bare scheme |
| CrawlerUtil.ExtractTextFromHtml | packages/server/src/utils/crawlers/crawler_util.ts:314-327 | empty in, empty out. It is never longer than the input, and has no white space at either end. `ScriptBlockDropped` and `StyleBlockDropped` show a whole block removed, and `ExtractLeavesNoTag` shows that no tag remains |
| CrawlerUtil.RemoveBlocks | packages/server/src/utils/crawlers/crawler_util.ts:319-321 | one left-to-right pass of the `/gi` block replace, never longer than its input. `BlockDropped` shows that it drops a whole block and keeps the text around it |
| CrawlerUtil.BlockDropped | packages/server/src/utils/crawlers/crawler_util.ts:319-321 | for a lower-case tag, `p<tag>x</tag>q` with no `<` in p, x or q becomes `pq` |
| CrawlerUtil.ScriptBlockDropped | packages/server/src/utils/crawlers/crawler_util.ts:314-326 | `p<script>x</script>q` with no `<` in p, x or q gives the trimmed `pq` |
| CrawlerUtil.StyleBlockDropped | packages/server/src/utils/crawlers/crawler_util.ts:314-326 | `p<style>x</style>q` with no `<` in p, x or q survives the script pass and gives the trimmed `pq` |
| CrawlerUtil.ExtractLeavesNoTag | packages/server/src/utils/crawlers/crawler_util.ts:308-326 | no position of the returned text starts a match of `<[^>]+>`: all tags are removed |
| CrawlerUtil.PlainTextIsTrimmed | packages/server/src/utils/crawlers/crawler_util.ts:314-326 | input without `<` comes back merely trimmed |
| CrawlerUtil.RemoveTags | packages/server/src/utils/crawlers/crawler_util.ts:324 | the stripped text is never longer than the input; `RemoveTagsLeavesNoTag` shows that no tag remains |
| CrawlerUtil.RemoveTagsLeavesNoTag | packages/server/src/utils/crawlers/crawler_util.ts:324 | no position of the stripped text starts a `<[^>]+>` tag |
| WeiboLogin.WeiboLogin.constructor | packages/server/src/crawlers/mediaPlatforms/weibo/login.ts:15-22 | the login type, context, phone and cookie string are kept |
| WeiboLogin.WeiboLogin.Begin | packages/server/src/crawlers/mediaPlatforms/weibo/login.ts:24-38 | (corrected check; see Findings) runs exactly the flow its type names: the QR flow, the phone stub (no effect), or the cookie injection. Any other type throws "Invalid Login Type" and touches nothing |
| WeiboLogin.WeiboLogin.CheckLoginState | packages/server/src/crawlers/mediaPlatforms/weibo/login.ts:40-54 | the check decides `LoggedIn`, read off the jar's dictionary (corrected; see Findings) |
| WeiboLogin.LoggedInMeaning | packages/server/src/crawlers/mediaPlatforms/weibo/login.ts:44-53 | logged in exactly with a non-empty `SSOLoginState`, or a non-empty `WBPSESS` other than the captured session |
| WeiboLogin.SsoCookieLogsIn | packages/server/src/crawlers/mediaPlatforms/weibo/login.ts:44-46 | a non-empty last `SSOLoginState` logs in, whatever the captured session |
| WeiboLogin.NewSessionLogsIn | packages/server/src/crawlers/mediaPlatforms/weibo/login.ts:48-51 | a non-empty last `WBPSESS` that differs from the captured session logs in |
| WeiboLogin.UnchangedSessionIsNotLogin | packages/server/src/crawlers/mediaPlatforms/weibo/login.ts:48-53 | checked against its own captured session, a jar without `SSOLoginState` does not log in |
| WeiboLogin.LoginStateAsWrittenNeverHolds | packages/server/src/crawlers/mediaPlatforms/weibo/login.ts:42-53 | as written, the check is false for every jar |
| WeiboLogin.AsWrittenMissesSsoLogin | packages/server/src/crawlers/mediaPlatforms/weibo/login.ts:42-46 | the jar `SSOLoginState=1` logs in by the intended check, not by the written one |
| WeiboLogin.FirstPass | packages/server/src/crawlers/mediaPlatforms/weibo/login.ts:57-67 | the index found is a passing check within the 601 attempts |
| WeiboLogin.FirstPassIsFirst | packages/server/src/crawlers/mediaPlatforms/weibo/login.ts:57-67 | it is the first passing check, and none is found exactly when all 601 fail |
| WeiboLogin.SomeCheckPasses | packages/server/src/crawlers/mediaPlatforms/weibo/login.ts:57-67 | the poll finds a check exactly when some attempt's jar is logged in |
| WeiboLogin.WeiboLogin.WaitForLoginSuccess | packages/server/src/crawlers/mediaPlatforms/weibo/login.ts:56-68 | (corrected check; see Findings) succeeds at the first passing check, after that many checks, otherwise after all 601. It waits 1000 ms before each retry |
| WeiboLogin.WaitAsWrittenNeverSucceeds | packages/server/src/crawlers/mediaPlatforms/weibo/login.ts:56-68 | with the check as written the poll never succeeds |
| WeiboLogin.WeiboLogin.LoginByQrcode | packages/server/src/crawlers/mediaPlatforms/weibo/login.ts:70-103 | (corrected check; see Findings) visits the sign-on page and ends as `QrOutcome`; adds no cookies |
| WeiboLogin.QrFlow | packages/server/src/crawlers/mediaPlatforms/weibo/login.ts:76-103 | without a code image, or when no check passes, the flow exits with status 1. Otherwise it returns after the poll's waits plus the 5 s redirect pause, under 601 s + 5 s |
| WeiboLogin.QrOutcome | packages/server/src/crawlers/mediaPlatforms/weibo/login.ts:70-103 | (corrected check; see Findings) returns exactly when a code image was found and the jar at some check is logged in against the session captured before the scan |
| WeiboLogin.QrOutcomeMeaning | packages/server/src/crawlers/mediaPlatforms/weibo/login.ts:70-103 | (corrected check; see Findings) returns exactly when a code image was found and a check passes, after the poll's waits plus 5 s; otherwise exits with status 1 |
| WeiboLogin.NoScanExits | packages/server/src/crawlers/mediaPlatforms/weibo/login.ts:87-96 | (corrected check; see Findings) when nobody scans (every check reads the captured jar), the flow exits with status 1 |
| WeiboLogin.QrAsWrittenAlwaysExits | packages/server/src/crawlers/mediaPlatforms/weibo/login.ts:87-96 | as written, both the captured session and every check read a property of the header string, so the QR flow exits with status 1 whatever the jars become |
| WeiboLogin.CookiesToAdd | packages/server/src/crawlers/mediaPlatforms/weibo/login.ts:113-121 | one cookie per entry of the parsed dictionary, with that value, on domain `.weibo.cn` and path `/`; none for `""` |
| WeiboLogin.WeiboLogin.LoginByCookies | packages/server/src/crawlers/mediaPlatforms/weibo/login.ts:110-124 | adds exactly `CookiesToAdd(cookieStr)` to the jar and visits nothing |
| WeiboLogin.HeaderLoginInjectsJar | packages/server/src/crawlers/mediaPlatforms/weibo/login.ts:113-122 | logging in with a jar's header string injects exactly that jar's cookies, each under its last value |
| Entrypoints.Assign | packages/wx-server-express/scripts/create-entrypoints.js:29 | an assigned existing key keeps its position; a new key goes last |
| Entrypoints.FromEntriesMeaning | packages/wx-server-express/scripts/create-entrypoints.js:29 | `fromEntries` yields distinct keys, the same key set, and the same object: the last value wins |
| Entrypoints.FromEntriesOfDistinct | packages/wx-server-express/scripts/create-entrypoints.js:29 | pairs with distinct keys come back unchanged |
| Entrypoints.Prefix | packages/wx-server-express/scripts/create-entrypoints.js:15-16 | one `"../"` per `/` in the key, or `"./"` when there is none |
| Entrypoints.EntryFiles | packages/wx-server-express/scripts/create-entrypoints.js:17-25 | exactly `key.cjs`, `key.js` and `key.d.ts`. The `.cjs` requires `<prefix>dist/<value>.cjs`; the other two both re-export `<prefix>dist/<value>.js` |
| Entrypoints.FlatFiles | packages/wx-server-express/scripts/create-entrypoints.js:13-27 | three files per entry |
| Entrypoints.FilenamesDistinct | packages/wx-server-express/scripts/create-entrypoints.js:13-29 | distinct keys give distinct file names |
| Entrypoints.GeneratedFilesInOrder | packages/wx-server-express/scripts/create-entrypoints.js:12-30 | without an `index` key: three files per entry in entry order, then `index`'s three |
| Entrypoints.GenerateFiles | packages/wx-server-express/scripts/create-entrypoints.js:12-30 | the record has distinct names and denotes the same object as the flat list of every entry's files followed by `index`'s, where a later pair wins. Its order is stated by `GeneratedFilesInOrder`, and the `index` files by `IndexFilesAlwaysDefault` |
| Entrypoints.IndexEntryFiles | packages/wx-server-express/scripts/create-entrypoints.js:13-25 | the `index` files point at `./dist/index` |
| Entrypoints.IndexFilesAlwaysDefault | packages/wx-server-express/scripts/create-entrypoints.js:13-29 | whatever the entries say, the `index` files re-export `./dist/index`: the appended pair is assigned last |
| Entrypoints.ConfiguredFiles | packages/wx-server-express/scripts/create-entrypoints.js:4-30 | with the script's empty table, only the three `index` files exist |
| Entrypoints.EntryPointsField | packages/wx-server-express/scripts/create-entrypoints.js:39-41 | one `src/<value>.ts` per configured entry, in order |
| Entrypoints.UpdateTsconfig | packages/wx-server-express/scripts/create-entrypoints.js:34-44 | fails with a `TypeError` exactly on a `null`/`undefined` manifest |
| Entrypoints.UpdateTsconfigKeeps | packages/wx-server-express/scripts/create-entrypoints.js:35-42 | every field and every `typedocOptions` field is kept, but `entryPoints`, which becomes `EntryPointsField` |
| Entrypoints.UpdateTsconfigIdempotent | packages/wx-server-express/scripts/create-entrypoints.js:34-44 | rewriting twice equals rewriting once |
| Entrypoints.FilesField | packages/wx-server-express/scripts/create-entrypoints.js:62 | `dist/` followed by the generated names, in order |
| Entrypoints.UpdatePackage | packages/wx-server-express/scripts/create-entrypoints.js:50-63 | every field is kept but `exports` and `files`. `exports` has exactly the `"."` and `"./package.json"` keys, and `files` is `FilesField` of the names |
| Entrypoints.UpdatePackageIdempotent | packages/wx-server-express/scripts/create-entrypoints.js:50-63 | rewriting twice equals rewriting once |
| Entrypoints.Workspace.WriteGenerated | packages/wx-server-express/scripts/create-entrypoints.js:66-69 | the files are written in record order |
| Entrypoints.Workspace.UpdateConfig | packages/wx-server-express/scripts/create-entrypoints.js:32-73 | each failure stops where it happens and keeps what was already written. On success: both manifests rewritten, the generated files written, and `.gitignore` listing their names |
| Entrypoints.Workspace.UpdateOutputs | packages/wx-server-express/scripts/create-entrypoints.js:46-72 | a missing manifest changes nothing. Otherwise the manifest is rewritten, the files are written and `.gitignore` is set |
| Entrypoints.Workspace.DeleteFiles | packages/wx-server-express/scripts/create-entrypoints.js:77-81 | exactly the named files are removed; missing ones are skipped |
| Entrypoints.Workspace.CleanGenerated | packages/wx-server-express/scripts/create-entrypoints.js:75-82 | removes exactly the names `generateFiles` produces |
| Entrypoints.Workspace.Run | packages/wx-server-express/scripts/create-entrypoints.js:84-90 | `pre` removes the generated files and nothing else |

## Left out

- **HTTP transport and browser.** Axios, Playwright, proxies and timeouts are not modelled. They become the `Transport` answers, the jar parameters and the `polls` oracle. Running out of answers (`unanswered`) is a model artefact.
- **Callbacks, sleeps and waits.** These are recorded as counts or totals, not performed: the callbacks as delivered lists, the sleeps as counts, the retry and redirect waits as milliseconds. `crawlInterval` and timing are not modelled.
- **`process.exit`** is the terminal outcome `Exited(1)`.
- **URL decoding and form parsing.** `decodeURIComponent` is a `decode` parameter; its result is left uninterpreted. Only its throw on a malformed escape is modelled, as `None`, and becomes a `URIError`. `URLSearchParams` parsing ignores percent-escapes and `+`. The query serialisation of `get` is left to the transport.
- **JavaScript object key order.** Cookie dictionaries are maps, and the cookies added by `loginByCookies` are a set. The build script's records are ordered lists. A cookie named `__proto__` is kept as an ordinary key by `CookieDict`, `StrCookieDict` and `CookiesToAdd`. In the source, `cookieDict[name] = value` (crawler_util.ts:196, 217) runs the inherited `__proto__` setter instead and adds no own key, so `convertCookies` and `convertStrCookieToDict` drop that cookie and `loginByCookies` never injects it.
- **Numbers and strings.** Numbers in JSON bodies are integers: `parseInt`'s float precision and non-integer JSON numbers are not modelled. Strings are sequences of characters, without UTF-16 detail.
- **`getNoteInfoById`** is not part of this model: it runs a regular expression over HTML and calls `JSON.parse`.
- **`post`** is not part of this model: no core operation calls it.
- **QR helpers.** `findLoginQrcode`, `findQrcodeImgFromCanvas` and `showQrcode` (screenshots, image decoding, opening a viewer) are reduced to the `qrcode` string they yield.
- **Other plumbing.** The random user-agent helpers, the logger, and the service, controller and route layers are not modelled. So is the configuration, except `ENABLE_GET_SUB_COMMENTS`, which is a boolean parameter.
- **Header aliasing.** client.ts:146 mutates the headers object it was given. The model updates the client's own `headers` map, so sharing that object with the caller is not modelled.
- **The build script's file system.** `JSON.parse`/`JSON.stringify` of the manifests is not modelled: they are held as parsed values. `mkdirSync` is not modelled either.
- JsValue.StringToNumber: a converted number is kept exact. Rounding to a double is not modelled, so text such as `"1e400"` is a large finite number here but `Infinity` in JavaScript.
- WeiboApi.KeywordRequest: the defaults `page = 1` and `searchType = SearchType.DEFAULT` (client.ts:155-157) are not applied: the caller passes both. The enum is defined in field.ts, which is not part of this model.
- Client.WeiboClient.GetNoteAllComments: the default `maxCount = 10` (client.ts:192) is not applied, and the budget is an integer: a fractional or `Infinity` budget is not modelled.
- WeiboLogin.WeiboLogin.constructor: the defaults `loginPhone = ''` and `cookieStr = ''` (login.ts:19-20) are not applied: the caller passes all four values.
- WeiboLogin.WeiboLogin.WaitForLoginSuccess: p-retry's "600 retries" is modelled as a loop of 601 checks with a fixed 1000 ms pause before each retry. Back-off randomisation is not modelled: it is off with factor 1.
- WeiboLogin.WeiboLogin.LoginByMobile: it has no contract because it does nothing. `Begin` states that the phone flow changes nothing.
- Entrypoints.Workspace.Run: the contract speaks only of `pre`. For any other command the body calls `UpdateConfig` on the script's table, whose own contract states the effect.

## Findings

| source | as written | input that shows it | evidently intended | confidence | as-written member | corrected member |
|---|---|---|---|---|---|---|
| packages/server/src/crawlers/mediaPlatforms/weibo/login.ts:42 | `const [cookieDict] = convertCookies(...)` binds the first element of the pair, the header string. So `cookieDict['SSOLoginState']` and `cookieDict['WBPSESS']` are `undefined`: `checkLoginState` is false for every jar. The session captured at login.ts:87-89 is read the same way, and the QR login always exits after the poll | the jar `[SSOLoginState=1]` (lemma `AsWrittenMissesSsoLogin`) | destructure the dictionary (`const [, cookieDict]`): logged in with a non-empty `SSOLoginState`, or a new `WBPSESS` | high, not executed | WeiboLogin.LoggedInAsWritten (with WeiboLogin.LoginStateAsWrittenNeverHolds, WeiboLogin.WaitAsWrittenNeverSucceeds, WeiboLogin.QrAsWrittenAlwaysExits) | WeiboLogin.WeiboLogin.CheckLoginState (deciding WeiboLogin.LoggedIn, proved in WeiboLogin.LoggedInMeaning) |
