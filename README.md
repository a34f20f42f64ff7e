# Spotify OAuth2 client and WTTS playlist scraper, in Dafny

This project models two Python files.

`oauth2.py` implements the Authorization Code grant of RFC 6749 section 4.1 for Spotify. It
covers the following steps:

- It builds the authorization URL.
- It runs a loopback HTTP listener that catches the redirect carrying the `code`.
- It exchanges the code at the token endpoint.
- It refreshes a stale token as in section 6 of the same RFC.
- It keeps the token response in the cache file `oauth_token.txt`.

`scraper.py` reads artist/title pairs from the text of the WTTS "on air" page and adds the
Spotify tracks found for them to a playlist. Tracks already on the playlist are not added again.

The modules are:

- `Wrappers` (`wrappers.dfy`): `Option` and `Result`.
- `Text` (`text.dfy`): the `str` operations the sources use. These are `split` on one character,
  `strip`, `endswith` and `replace`. `Join` joins pieces with a separator. It describes the
  `&`-separated text that `_build_url` (`+= "&"`, then `[:-1]`) and `urlencode` produce.
- `Encoding` (`encoding.dfy`): the library encoders the client calls, written out.
  - UTF-8 (`str.encode`).
  - `quote`, `quote_plus` and `urlencode`, as percent-encoding per RFC 3986 section 2.1.
  - Base64 per RFC 4648 section 4.
- `OAuth2Client` (`oauth2.dfy`): the classes `Oauth2`, `SpotifyHTTPServer` and `SpotHTTPHandler`,
  with the cache file as a `CacheFile` object.
  - The state-changing methods are proved against pure functions.
  - `IsValidToken`, `Plan`, `Outcome`, `Run` and the request builders are among those functions.
  - Lemmas then state the client's promises about these functions.
- `Scraper` (`scraper.dfy`): the classes `WTTSParser` and `SpotifyEditor`.
  - Their loops are proved against `NodeRecords`/`AllRecords`, `PlaylistId`, `Hits` and
    `AddFor`.
  - Lemmas state what those functions mean.

Inputs stand in for the outside world:

- The browser's callback requests are an infinite stream `nat -> Query` of parsed query maps.
  `handle_request` blocks until the next one arrives.
- The token endpoint is a function from the posted `TokenRequest` to the decoded JSON object, or
  to the exception `urlopen` raises.
- The two readings of `time.time()` are the integer parameters `now` and `later`.
- The page's nodes are given as their texts.
- Spotify's answers are given as data: the user id, the playlists, a search function and the track
  pages of each playlist.

The model follows the code in these cases, where a reader of the documentation might expect
otherwise:

- A failed refresh request is not retried through the browser flow. `urlopen`'s exception
  reaches the caller.
- When the listener gets no code within its five requests, `get_token` returns `None`. The code
  exchange then posts `code=None` (`str(None)`) rather than raising a timeout.
- `obtain_authorization()` with no cache file and no in-memory cache raises `TypeError`, from
  `"refresh_token" in None`. It does not start the browser flow.
- `get_token` returns `None` without listening whenever any cache was loaded, valid or not.
- `_write_token_to_cache` writes the file but leaves the loaded `token_cache` as it was.

## Model

| member | source | states |
|---|---|---|
| Text.Split | scraper.py:119 | `split` on one character gives at least one piece, and no piece contains the separator |
| Text.Join | oauth2.py:56-64 | `sep.join(parts)`; it has no contract of its own, and SplitJoin and JoinSplit state that it undoes `Split` and is undone by it |
| Text.SplitJoin | oauth2.py:56-68 | joining separator-free pieces and splitting again gives back exactly those pieces, so a joined URL or form body reads back unambiguously |
| Text.JoinSplit | scraper.py:119 | joining the pieces of a split with the separator restores the original text |
| Text.StripStartDrops | scraper.py:123 | the left strip removes only a run of leading whitespace and keeps the rest of the line as it is |
| Text.StripEndDrops | scraper.py:123 | the right strip removes only a run of trailing whitespace and keeps the rest as it is |
| Text.Strip | scraper.py:123 | a stripped line is no longer than the line and neither starts nor ends with whitespace |
| Text.ReplaceAbsent | scraper.py:146 | `replace` leaves a text in which the pattern does not occur unchanged |
| Text.Replace | scraper.py:146 | `str.replace`: one left-to-right scan replacing non-overlapping occurrences; no contract of its own, and ReplaceAbsent, ReplaceHead, ReplaceAfterPrefix, ReplaceMissAtStart and ReplaceShrinks state its behaviour |
| Text.ReplaceHead | scraper.py:146 | an occurrence at the front is replaced and the scan resumes after it |
| Text.ReplaceAfterPrefix | scraper.py:146 | a prefix without the pattern's first character passes through `replace` untouched |
| Text.ReplaceMissAtStart | scraper.py:146 | a text that differs from the pattern at one position and holds its first character only at the front is left unchanged |
| Text.ReplaceShrinks | scraper.py:146 | replacing by a shorter text never lengthens the text |
| Encoding.Utf8Char | oauth2.py:173-174 | one character encodes to 1 to 4 bytes: ASCII as its own single byte, every other character as bytes of 0x80 and above |
| Encoding.Utf8 | oauth2.py:173-174 | `str.encode('utf-8')`: at least one byte per character |
| Encoding.Quote | oauth2.py:60-62 | `quote` writes only always-safe characters, the characters declared safe, and `%` |
| Encoding.QuoteOmits | oauth2.py:60-62 | a quoted value never contains `&` (or any other unsafe delimiter), so redirect_uri and scope cannot inject URL parameters |
| Encoding.QuoteIdentity | oauth2.py:60-62 | `quote` returns a text unchanged exactly when all its characters are safe; otherwise the text grows |
| Encoding.QuotePlus | oauth2.py:163-181 | `quote_plus` writes only always-safe characters, `+` and `%` |
| Encoding.QuotePlusSafe | oauth2.py:163-181 | `quote_plus` keeps a text of always-safe characters as it is |
| Encoding.QuotePlusOmits | oauth2.py:163-181 | `quote_plus` never writes `&` or `=` |
| Encoding.UrlencodeFields | oauth2.py:163-181 | an urlencoded form splits at `&` into exactly one `key=value` field per pair, in order |
| Encoding.Urlencode | oauth2.py:164-181 | `urlencode` of string pairs; no contract of its own, and UrlencodeFields and FormFieldSplit state how it reads back |
| Encoding.FormFieldSplit | oauth2.py:163-181 | each form field splits at `=` into exactly the quoted key and the quoted value |
| Encoding.Base64Length | oauth2.py:175 | Base64 writes four characters per started group of three bytes |
| Encoding.Base64RoundTrip | oauth2.py:175 | decoding the Base64 encoding gives back the bytes |
| Encoding.Base64Encode | oauth2.py:175 | `b64encode`; no contract of its own, and Base64Length and Base64RoundTrip state its length and that it decodes back |
| OAuth2Client.AuthorizationUrlFields | oauth2.py:56-68 | the URL is the base followed by exactly the present parameters as `name=value`, in the order client_id, response_type, redirect_uri, state, scope, show_dialog, separated by `&`, none trailing |
| OAuth2Client.AuthorizationUrl | oauth2.py:56-72 | the URL can be built exactly when client_id, response_type, redirect_uri and scope are all present, and it then starts with the base URL |
| OAuth2Client.PositionalDefaults | oauth2.py:34-54 | the four-argument call `Oauth2(id, secret, scope, state)` builds a URL with response_type "code" and the quoted loopback redirect_uri; an explicit `None` response_type raises "must be not null"; an omitted scope makes `quote` raise |
| OAuth2Client.FieldsWithState | oauth2.py:56-64 | with a state and no show_dialog, the URL has exactly the five fields client_id, response_type, quoted redirect_uri, state and quoted scope, in that order |
| OAuth2Client.UrlFieldsAmpFree | oauth2.py:56-63 | with `&`-free unquoted values, no URL field contains `&` |
| OAuth2Client.AuthorizationUrlRequired | oauth2.py:58-72 | a missing client_id, then a missing response_type, raises "<name> must be not null"; a missing redirect_uri or scope fails; whether the URL can be built does not depend on state or show_dialog |
| OAuth2Client.AbsentStateOmitted | oauth2.py:61-72 | an absent state adds no `state=` field at all |
| OAuth2Client.TrailingAmpersand | oauth2.py:64 | cutting the last character of the `&`-terminated URL leaves the base and the `&`-joined fields |
| OAuth2Client.IsValidToken | oauth2.py:114-124 | validity is only ever true for a present cache |
| OAuth2Client.ValidityIsStrict | oauth2.py:119-124 | no cache is never valid; a token is expired at its expiry instant; validity holds at every earlier time and expiry at every later time |
| OAuth2Client.FreshAfterWrite | oauth2.py:104-124 | a response written at time `w` is valid exactly while `now < w + expires_in` |
| OAuth2Client.ValidityTypeErrors | oauth2.py:123-124 | with both times present, a `TypeError` is raised exactly when one of them is a string: from `+` for int plus str, from concatenating str and int, and from `>` when two strings were concatenated |
| OAuth2Client.FormWordPlain | oauth2.py:163-181 | the fixed keys and grant types of the bodies pass through `quote_plus` unchanged |
| OAuth2Client.AccessBody | oauth2.py:163-170 | the urlencoded code-exchange body; no contract of its own, and AccessBodyFields states its five fields |
| OAuth2Client.RefreshBody | oauth2.py:177-181 | the urlencoded refresh body; no contract of its own, and RefreshBodyFields states its two fields |
| OAuth2Client.RefreshHeader | oauth2.py:172-175 | the header is built exactly when client_id and client_secret are present, and it is `Authorization` with a `Basic ` value; RefreshHeaderDecodes states its payload |
| OAuth2Client.FormFieldPlain | oauth2.py:163-170 | in a body field, only the value is quoted; the key appears as written |
| OAuth2Client.AccessBodyFields | oauth2.py:163-170 | the code-exchange body is exactly five fields, grant_type, code, redirect_uri, client_id and client_secret, in that order, whatever the values hold |
| OAuth2Client.RefreshBodyFields | oauth2.py:177-181 | the refresh body is exactly `grant_type=refresh_token` followed by the quoted refresh token |
| OAuth2Client.RefreshHeaderDecodes | oauth2.py:172-175 | the header exists exactly when id and secret are present; it is `Authorization: Basic ...` whose payload decodes to the UTF-8 bytes of `client_id:client_secret` |
| OAuth2Client.Plan | oauth2.py:126-151 | the caller's code is exchanged exactly when one is given |
| OAuth2Client.PlanWithoutCache | oauth2.py:136-151 | a caller's code is exchanged whatever the cache holds; no code and no cache raises `TypeError` |
| OAuth2Client.NextCallAfterWrite | oauth2.py:104-149 | after an exchange is written, the next call without a code answers the same access token while it is valid; once expired it refreshes when the response had a refresh token, and reauthorizes otherwise |
| OAuth2Client.Outcome | oauth2.py:126-154 | a caller's code is always posted in an access request, and a token is answered without a request only when the caller gave no code |
| OAuth2Client.Reply | oauth2.py:200-213 | every callback is answered 200 with `text/html`; the success page is sent exactly when the query has `code` |
| OAuth2Client.Replies | oauth2.py:210-213 | one reply per handled request, all of them 200 |
| OAuth2Client.Handle | oauth2.py:94 | one handled request: the next request of the stream is served, its reply is appended and earlier replies are kept, and a request without `code` keeps the captured code |
| OAuth2Client.Run | oauth2.py:90-95 | the listener loop keeps its request stream and handles at most the budget of requests |
| OAuth2Client.RunStopsAtFirstCode | oauth2.py:90-96 | the loop stops right after the first request carrying a code and returns that code; with no code it handles exactly the budget of requests and returns `None`; an already captured code is returned without handling anything |
| OAuth2Client.RunReplies | oauth2.py:90-96 | every request the loop handles is answered, in order |
| OAuth2Client.LoadAgain | oauth2.py:136-138 | reloading the file that was just loaded decides the same way |
| OAuth2Client.CachedAnswerIsValid | oauth2.py:136-139 | a token is answered without any request exactly when no code was given and the loaded cache is valid and holds `access_token`; the answer is that access token |
| OAuth2Client.PostedRequests | oauth2.py:132-154 | every request is a form POST to the token endpoint; an Authorization header is sent exactly on the refresh path; the caller's code, or the code the listener captured, is the body's code |
| OAuth2Client.SpotifyHTTPServer.constructor | oauth2.py:187-189 | a new server has no access code and has handled nothing |
| OAuth2Client.SpotifyHTTPServer.HandleRequest | oauth2.py:94 | one request is handled as `Handle` describes |
| OAuth2Client.SpotHTTPHandler.DoGet | oauth2.py:200-213 | `access_code` is set only by a query with `code` and left unchanged otherwise; every request gets its 200 reply |
| OAuth2Client.Oauth2.Create | oauth2.py:34-54 | the constructor raises exactly the error of `AuthorizationUrl`; otherwise the object holds that URL and no cache or server |
| OAuth2Client.Oauth2.AddToUrl | oauth2.py:66-72 | a present value appends `name=value&`; a missing required one raises "must be not null"; a missing optional one changes nothing |
| OAuth2Client.Oauth2.BuildUrl | oauth2.py:56-64 | the built URL is `AuthorizationUrl`, or the same error is raised |
| OAuth2Client.Oauth2.LoadTokenCache | oauth2.py:98-102 | the file's content is loaded when it exists; otherwise the previous cache stays |
| OAuth2Client.Oauth2.WriteTokenToCache | oauth2.py:104-108 | the file holds the response with `time_requested` set to the time of writing |
| OAuth2Client.Oauth2.RemoveTokenCache | oauth2.py:110-112 | the file is deleted and the cache forgotten; a missing file raises before anything changes |
| OAuth2Client.Oauth2.GetToken | oauth2.py:74-96 | with any cache loaded, `None` is returned and the server is not touched; otherwise the server (new if none) runs `Run` for five requests and its code is returned |
| OAuth2Client.Oauth2.Prepare | oauth2.py:126-154 | the answer or request is `Outcome` of the state before the call; the cache, file and server change only as that branch does |
| OAuth2Client.Oauth2.PrepareFromCache | oauth2.py:136-149 | on the loaded cache, the branch taken is `Outcome`'s: answer, refresh, or remove and reauthorize |
| OAuth2Client.Oauth2.PrepareRefresh | oauth2.py:141-154 | the refresh request with the Basic header next to the form content type, or the `TypeError` building the header raises |
| OAuth2Client.Oauth2.Reauthorize | oauth2.py:146-148 | the cache file is removed, or `FileNotFound` raised; then `get_token` listens and its code, `None` included, is exchanged |
| OAuth2Client.Oauth2.ObtainAuthorization | oauth2.py:126-161 | an answered branch returns without a request; otherwise exactly `Outcome`'s request is posted; each response is written stamped and its `access_token` returned; a failed request leaves the file as the branch left it |
| Scraper.UnescapeIsSequential | scraper.py:140-146 | the replacements run in order, so `&amp;` followed by text without `&` or `#` becomes `&` followed by that text; for example `&amp;lt;` becomes `&lt;` and not `<` |
| Scraper.EscapedAmpersand | scraper.py:140-146 | the first three replacements turn an escaped ampersand into a plain one |
| Scraper.LoneAmpersand | scraper.py:140-146 | the curly-quote replacements leave an ampersand alone when no `#` follows it |
| Scraper.UnescapeEntity | scraper.py:140-146 | between texts without `&`, `&lt;` becomes `<`, `&gt;` becomes `>`, `&#8220;` and `&#8221;` are deleted and `&#8217;` becomes `'`; nothing else changes |
| Scraper.EntityReached | scraper.py:146 | the replacements listed before an entity's own leave the text as it is |
| Scraper.EntityReplaced | scraper.py:146 | the entity's own replacement replaces it, and the later ones find no `&` left |
| Scraper.EntityMiss | scraper.py:140-146 | no pattern listed before an entity matches that entity followed by `&`-free text |
| Scraper.ReplaceAllSkip | scraper.py:146 | replacements that leave a text as it is can be skipped in the `reduce` |
| Scraper.ReplaceAllWithoutAmpersand | scraper.py:146 | a text without `&` comes through every entity replacement unchanged |
| Scraper.UnescapeWithoutEntities | scraper.py:140-146 | a text in which none of the six patterns occurs is returned unchanged |
| Scraper.UnescapeWithoutAmpersand | scraper.py:140-146 | in particular, a text without `&` is returned unchanged |
| Scraper.UnescapeShrinks | scraper.py:140-146 | unescaping never lengthens a text |
| Scraper.Unescape | scraper.py:136-146 | the `reduce` of the six replacements in dictionary order; no contract of its own, and the lemmas above state its behaviour |
| Scraper.TitleSuffix | scraper.py:115-129 | a title ending in "(Sun King Studio 92)" has exactly that suffix removed once; any other title is kept as it is |
| Scraper.Title | scraper.py:128-129 | the stored title is a prefix of the line |
| Scraper.Kept | scraper.py:122-124 | the counted lines are no more than the lines, and each is longer than one character |
| Scraper.ShortLineIgnored | scraper.py:122-131 | a line that strips to at most one character can be removed anywhere without changing the counted lines, so it does not move the artist/title alternation |
| Scraper.PairUpCount | scraper.py:118-131 | `k` counted lines give `k / 2` records, rounded down |
| Scraper.PairUpAt | scraper.py:125-130 | record `m` has counted line `2m` as artist and the title of line `2m + 1` as song |
| Scraper.PairUpAppendEven | scraper.py:125-126 | a counted line at an even count only names the artist |
| Scraper.PairUpAppendOdd | scraper.py:127-130 | a counted line at an odd count appends exactly one record, of the pending artist and this title |
| Scraper.PairUp | scraper.py:125-131 | the records of the counted lines; no contract of its own, and PairUpCount, PairUpAt and PairUpAppendEven/Odd state which they are |
| Scraper.WTTSParser.constructor | scraper.py:101-103 | a new parser has no records |
| Scraper.WTTSParser.ParseArtistSongList | scraper.py:108-131 | the records of all nodes, node after node, are appended; existing records stay in place in front |
| Scraper.WTTSParser.ParseNode | scraper.py:118-119 | one node appends the records of its unescaped lines |
| Scraper.WTTSParser.ParseLines | scraper.py:120-131 | the line loop, starting at count 0 with no artist, appends exactly the pairs of the counted lines |
| Scraper.WTTSParser.ReadLine | scraper.py:123-131 | one line keeps the loop invariant: the count of counted lines, the pending artist at an odd count, and their records |
| Scraper.SeenListed | scraper.py:61-70 | an id is in the collected set exactly when some page lists it |
| Scraper.PlaylistIdFirst | scraper.py:30-35 | the lookup gives `None` exactly when no playlist has the name, and otherwise the id of the first playlist that has it |
| Scraper.PlaylistId | scraper.py:30-35 | the id of the first playlist with the name; no contract of its own, and PlaylistIdFirst states it |
| Scraper.Hits | scraper.py:46-53 | at most one id per record |
| Scraper.HitsFromRecords | scraper.py:46-53 | every collected id is the first hit of some record, and the first hit of every record that has one is collected; when every record has a hit, there is one id per record |
| Scraper.AddFor | scraper.py:72-76 | at most one add call is made, and none exactly when there is nothing new to add |
| Scraper.UniquesExactly | scraper.py:61-76 | the ids added are exactly the given ids that are on no page of the playlist |
| Scraper.SpotifyEditor.constructor | scraper.py:21-25 | the editor holds the user id and the API's answers, with no add calls made yet |
| Scraper.SpotifyEditor.GetPlaylistIdByName | scraper.py:30-35 | the loop returns `PlaylistId`, the id of the first playlist with the name |
| Scraper.SpotifyEditor.GetRecordByName | scraper.py:81-95 | the first hit of the search "artist:A title:S", asking for two hits; `None` exactly when there are no hits |
| Scraper.SpotifyEditor.AddUniquesToPlaylist | scraper.py:56-76 | after reading every page, the calls are the old calls plus `AddFor`: one call with exactly the new ids, or none |
| Scraper.SpotifyEditor.AddRecordsToPlaylist | scraper.py:37-54 | nothing happens when no playlist has the name; otherwise the first hits of the records that have one are passed to `AddUniquesToPlaylist` for the first matching playlist |

## Left out

- The HTML of the two callback pages is represented by the `Page` value of the reply. The bytes written to `wfile` are not modelled.
- OAuth2Client.IsValidToken: the `TypeError` messages name the type `int` for `time_requested`, because times are integers here. With the float that `time.time()` writes, Python names `float`.
- `print` output, `webbrowser.open`, socket binding and the `http.server` machinery are I/O. They are left out. The browser's requests are an input stream.
- `urlopen` and the JSON decoding of its answer are a network call and a library call. Both become the input function `endpoint`. A non-2xx status appears only as the `Failure` that function returns.
- Reading and writing `oauth_token.txt` and `json.dumps`/`json.loads` become an abstract `CacheFile` that holds a decoded object or nothing. The file format and malformed content are not modelled.
- `time.time()` returns a float. It is an integer parameter here.
- The `encoding` parameter of `obtain_authorization` and the request builders is fixed to `'utf-8'`, its default. Other codecs are not modelled.
- `Json` values are strings or integers only. A float `expires_in`, or JSON lists and objects inside a response, are not modelled.
- `urlencode` is modelled for the string values the source passes. Keys keep their insertion order.
- `do_HEAD`, `SpotifyEditor.create_playlist`, `WTTSParser.createDom` and `getRecords`, and `test.py` are not part of this model. They are a header-only reply, a single API call, the DOM construction and top-level glue.
- `Record.artist` is always a string here. The source can only append a record after an artist line has been seen, so its `None` initial value never reaches a record.
- OAuth2Client.AuthorizationUrlFields: requires client_id, response_type, state and show_dialog to be free of `&`. The source adds them unquoted, and an `&` inside one would read back as extra parameters.
- Scraper.UnescapeIsSequential: proved for `&amp;` followed by any text without `&` or `#`, not for every text. Scraper.UnescapeEntity covers the other five entities, between texts without `&`.
