# Spotify-2-AppleMusic converter: a Dafny model of its core

This project models the part of the playlist converter that makes decisions.
It reads an Exportify CSV export, finds each track in the Apple Music catalog
(by ISRC first, then by the iTunes text search), and adds the matches to a
library playlist of the same name, keeping statistics as it goes.

Modules, one per source file plus two shared ones:

- `Text` (`text.dfy`): the string operations the sources use: ASCII
  lower/upper case, JavaScript's `trim` white-space set, `split`/`join`,
  `startsWith`, `includes`, `indexOf`/`lastIndexOf`.
- `Http` (`http.dfy`): what a rate-limited call settles with. A call either
  returns a `Response` (a status, and a body that parses as JSON or does not)
  or raises. A response is ok for a status in 200..299, as `fetch` defines it.
- `Limiter` (`limiter.dfy`): the token bucket class `RateLimiter` and the
  retry loop with exponential backoff. Both are imperative, and both are
  proved against the functions `Refill`, `WaitStep` and `RetryOutcome`. The
  clock is a parameter.
- `Csv` (`csv.dfy`): the character-level line scanner `parseCsvLine`, the
  header check and the row mapping of `readCsv`, all working on the file's
  content.
- `Catalog` (`catalog.dfy`): `searchByIsrc`, `getEquivalentSongId`,
  `textSearch` and `searchByText`. Each decides over the reply of its call.
- `Match` (`match.dfy`): the five-way acceptance test of
  `tryTextMatch`, its first-match loop, and the four-variant chain of
  `getItunesId`. The release-date check on a result's web page is an
  uninterpreted oracle. The fifth test is modelled as written: it compares
  the result's artist name with the row's title, and the result's track name
  with the row's artist.
- `Playlists` (`playlists.dfy`): `getOrCreatePlaylist`,
  `getPlaylistCatalogIds` and `addSongToPlaylist`. Here `process.exit(1)`
  becomes a `Fatal` outcome.
- `Convert` (`convert.dfy`): `derivePlaylistName` and the row task of
  `convertPlaylist`. The row task covers:
  - the ISRC candidate loop and its four rules;
  - the text-search fallback;
  - the equivalent-id substitution;
  - the membership test and the add;
  - the `Stats` counters, the growing list of ids already in the playlist,
    and the lines written to the no-result file.

  The batch loop is imperative. It is proved equal to a left fold (`Run`) of
  one row step over the rows. The run lemmas are stated over an abstract
  `Actions` value: where a row's searches lead, what an add call settles
  with, and the escaping. So they hold for any replies.

The network is a fixed function from request to reply, so the same request
always gets the same reply. The services take the reply that `callApi`
settled with. The retry loop that produces it is modelled on its own in
`Limiter`.

Some members define a test or a step of the source directly and carry no
contract of their own: `Csv.Scan`, `Csv.HeadersValid`, `Match.LowerOpt`,
`Match.SquashOpt`, `Match.Accepts`, `Playlists.AddSucceeds`,
`Match.ReleaseDateMatches`, `Convert.TextPhase`, `Convert.Step`,
`Convert.Run` and `Limiter.Waits`. The table names the members whose
contracts and lemmas state their properties.

## Model

| member | source | states |
|---|---|---|
| Limiter.Refill | src/services/limiter.ts:16-25 | With at least one whole token earned, the count becomes `min(maxTokens, tokens + floor(elapsed * rate))` and the refill time becomes the clock reading. With none earned, the bucket is unchanged. A count within the capacity never drops and never exceeds it. |
| Limiter.WaitStep | src/services/limiter.ts:27-39 | `wait` sleeps exactly when fewer than one token is left after refilling. It consumes exactly one token, refilling once more after the sleep, and leaves fewer than `maxTokens`. The refill time afterwards is that of the last refill made, so partly earned time carries over. |
| Limiter.FractionCarriesOver | src/services/limiter.ts:21-24 | A refill that earns no whole token leaves the refill time alone, so a later refill counts the whole elapsed time. |
| Limiter.WaitEarnsToken | src/services/limiter.ts:30-35 | A sleep of `(1 / refillRate) * 1000` ms earns at least one whole token. |
| Limiter.WaitKeepsTokensNonNegative | src/services/limiter.ts:27-39 | Used sequentially, with the clock not running backwards and the sleep lasting at least `1000 / rate` ms, a wait leaves at least zero tokens. |
| Limiter.Burst | src/services/limiter.ts:27-39 | `n` waits at one instant yield `n` sleep flags. |
| Limiter.BurstAtOneInstant | src/services/limiter.ts:27-39 | At one instant, the first `tokens` waits pass without sleeping and every later one sleeps. |
| Limiter.RateLimiter.constructor | src/services/limiter.ts:9-14 | A new limiter starts full, with `refillRate == maxTokens / period` and `lastRefill` set to the clock. |
| Limiter.RateLimiter.RefillTokens | src/services/limiter.ts:16-25 | The fields after `refillTokens` are `Refill` of the fields before, and `tokens <= maxTokens` is kept. |
| Limiter.RateLimiter.Wait | src/services/limiter.ts:27-39 | The fields after `wait`, and whether it slept, are `WaitStep` of the fields before. |
| Limiter.RetryFrom | src/services/limiter.ts:53-75 | From attempt `i` on: every attempt before the last one threw a retryable error. The result is the first success, or the error that ended it. A 404/400 `Response` stops it before `maxRetries`. Backoff `k` is `Backoff(baseDelay, k)`, one between consecutive attempts. |
| Limiter.BackoffDoubles | src/services/limiter.ts:69 | The backoff after attempt `n`, doubled from `baseDelay` `n` times, is `baseDelay * 2^n`. |
| Limiter.RetryOutcome | src/services/limiter.ts:46-76 | `retry` makes at most `maxRetries` attempts and returns the first success. A thrown 404/400 is rethrown at once. There is one backoff fewer than attempts, so no sleep follows the last attempt. After all attempts fail, the last error is thrown. |
| Limiter.Retry | src/services/limiter.ts:46-76 | The retry loop yields `RetryOutcome`, and it calls `wait` once per attempt. The limiter ends in the state reached by one `WaitStep` per attempt, at that attempt's clock readings. |
| Limiter.RetryOutcomeDetermined | src/services/limiter.ts:46-76 | A run is `RetryOutcome` when its earlier attempts all threw retryable errors, its backoffs double from `baseDelay`, and its last attempt succeeded or threw an error that ended it: a 404/400 before the last attempt, any error on it. |
| Limiter.RetryAttempt | src/services/limiter.ts:53-72 | One pass of the loop takes one `WaitStep`. A success or a 404/400 ends the run as `RetryOutcome`. Any other error is kept as the last error, and a backoff is added unless this was the last attempt. |
| Limiter.WaitThenCall | src/services/limiter.ts:54-56 | One attempt returns what the wrapped call gives. It leaves the limiter in the state one `WaitStep` from where it was. |
| Limiter.RetryStep | src/services/limiter.ts:57-72 | A retryable failure adds a backoff unless it was the last attempt, then the remaining attempts follow. |
| Limiter.CallApi | src/services/limiter.ts:79-81 | `callApi` is `retry` with 3 attempts and a 1000 ms base delay: 1 to 3 attempts, and one backoff fewer. The limiter goes through one `WaitStep` per attempt. |
| Csv.CleanField | src/services/csv.ts:36 | A field loses its surrounding white space and at most one `"` at each end. Without quotes, it is just the trimmed value. |
| Csv.CleanFieldRemovesEndQuotes | src/services/csv.ts:36 | The trimmed field is the cleaned one with the removed quotes put back: one in front exactly when the trimmed field starts with `"`, and one behind exactly when a `"` is left at its end after that. |
| Csv.ParseCsvLine | src/services/csv.ts:10-37 | The character loop yields the scanner's fields, each cleaned. There is exactly one field more than there are commas outside quotes. |
| Csv.FieldCount | src/services/csv.ts:15-33 | The scanner ends one field per comma outside quotes, plus the final one. |
| Csv.ScanWithoutQuotes | src/services/csv.ts:15-33 | Without `"`, the scanner splits on commas. |
| Csv.UnquotedLine | src/services/csv.ts:15-36 | For a line without `"`, the result is `split(",")` with each piece trimmed. |
| Csv.ScanEscaped | src/services/csv.ts:18-25 | Inside quotes, `""` yields one `"` and consumes both characters; a closing quote ends the quoted section. |
| Csv.ScanQuotedLine | src/services/csv.ts:15-33 | A line of quoted, comma-separated fields scans back to exactly those fields. |
| Csv.QuotedRoundTrip | src/services/csv.ts:10-37 | Fields written as RFC 4180 quoted fields come back as their cleaned selves. |
| Csv.LeadingEscapedQuoteLost | src/services/csv.ts:36 | The value `"x`, written `"""x"` as section 2 of RFC 4180 prescribes, is read back as `x`. |
| Csv.SplitLines | src/services/csv.ts:44 | Splitting on `\r?\n` gives one line more than there are line feeds, and no line holds a line feed. |
| Csv.SplitLinesRoundTrip | src/services/csv.ts:44 | Lines without line feeds, written out with `\n` or `\r\n` endings, split back into exactly those lines. With `\n` endings, a line before the last must not end in `\r`, which the split takes as part of the line ending. |
| Csv.TrimEmptyIffBlank | src/services/csv.ts:44 | A line trims to `""` exactly when it is all white space. |
| Csv.NonBlank | src/services/csv.ts:44 | The filter keeps every non-blank line and only those. |
| Csv.NonBlankConcat | src/services/csv.ts:44 | The filter works line by line. The kept lines of a concatenation are the kept lines of its parts, in order and with repetitions, and a single line is kept exactly when it is not blank. |
| Csv.PadFields | src/services/csv.ts:60-63 | Padding gives at least 17 fields, each the parsed field or `""` past the end. |
| Csv.ReadLine | src/services/csv.ts:55-72 | A line is skipped exactly when it is blank. Any other line becomes the row of columns 1, 3, 5, 7, 8 and 16 of its padded fields. |
| Csv.ReadRows | src/services/csv.ts:54-73 | Every data line becomes exactly one row, in order. |
| Csv.ReadCsv | src/services/csv.ts:39-102 | No non-blank line means `EmptyFile`. An invalid header (fewer than 17 columns, an unknown name at 1, 3 or 5, or no `ISRC` at 16) means `WrongFormat`. Otherwise the header is the first non-blank line and the rows are the later ones. |
| Csv.HeadersCheckedColumnByColumn | src/services/csv.ts:84-102 | Each checked column is looked up in its own list of names, so a 17-column header mixing Spanish, French and Japanese names, with `ISRC` at 16, passes. The same header one column short fails, and so does one with `isrc` at 16. |
| Catalog.SearchByIsrc | src/services/appleCatalog.ts:5-30 | Songs come back only from an ok, parsed response, and they are its `data`. A failed response, an unparsable body or an error gives none. |
| Catalog.GetEquivalentSongId | src/services/appleCatalog.ts:32-55 | An ok response with non-empty `data` gives `data[0].id`; every other case gives back `songId`. |
| Catalog.TextSearch | src/services/appleCatalog.ts:57-77 | Ok gives the parsed body, and 404 gives empty results. Anything else, an unparsable body included, throws: it returns exactly for ok+JSON or 404. |
| Catalog.SearchUrls | src/services/appleCatalog.ts:87-97 | Four URLs, each the base URL (country, media, entity, limit and the encoded title) followed by the query terms of its variant. The artist term comes in the first two, the album term in the first and third, and the last has neither. |
| Catalog.SearchVariants | src/services/appleCatalog.ts:99-119 | The first hit (ok with non-empty results) is returned and a 404 stops at once with empty results. Every earlier URL was neither. Running out gives empty results. |
| Catalog.SearchByText | src/services/appleCatalog.ts:79-120 | `searchByText` calls one to four of the variant URLs. It returns results only when the last URL called was a hit, and then they are that hit's body. Conversely, the first hit not preceded by a hit or a 404 is the last call, and its body is returned. |
| Catalog.SearchByTextBounds | src/services/appleCatalog.ts:79-120 | `searchByText` makes 1 to 4 calls. A 404 is always the last call and gives empty results. |
| Catalog.AllVariantsFail | src/services/appleCatalog.ts:99-119 | When no variant hits or answers 404, all are called and the results are empty. |
| Match.RulesNest | src/services/match.ts:19-39 | The first test implies the third, and the third implies the fourth. |
| Match.AcceptsReduced | src/services/match.ts:17-47 | A result is accepted exactly when it passes the release date, the fourth test or the fifth. |
| Match.MirroredComparisons | src/services/match.ts:36-37 | The two halves of each stripped comparison are the same test. |
| Match.NoTrackNameOnlyDate | src/services/match.ts:20-45 | A result without a track name is accepted only on its release date. |
| Match.NoUrlNoDate | src/services/match.ts:59-62 | A result without a page URL never passes the release-date check. |
| Match.SwappedNamesAccepted | src/services/match.ts:41-46 | The crosswise fifth test accepts a result whose track and artist names are the row's artist and title. |
| Match.FirstAccepted | src/services/match.ts:16-51 | The index of the first accepted result: every earlier one is rejected. |
| Match.TextMatch | src/services/match.ts:5-57 | An id comes only from the first accepted result of an ok, parsed search. Any accepted result guarantees an id. |
| Match.TryTextMatch | src/services/match.ts:5-57 | The loop with early return yields `TextMatch`. |
| Match.GetItunesId | src/services/match.ts:64-113 | No id exactly when all four searches (title+artist+album, title+artist, title+album, title, country `US`) give none. Otherwise it is the first one's id. |
| Playlists.FirstNamed | src/services/playlists.ts:23-31 | The index of the first playlist named exactly `name`. |
| Playlists.GetOrCreatePlaylist | src/services/playlists.ts:4-77 | A listing that names the playlist gives the first one so named. An ok listing whose body is not JSON, or a thrown listing, ends the process. Otherwise the create call decides. An ok answer gives `data[0].id`, or ends the process when there is none. A 400, 401 or 403 gives `BadRequest`, `Unauthorized` or `Forbidden`, any other failed status gives `CreateFailed` with that status, and a thrown create ends the process. Each of these holds in both directions. |
| Playlists.CreateOnlyWhenNotListed | src/services/playlists.ts:16-36 | The create reply matters only when the listing did not name the playlist. |
| Playlists.IdOrExit | src/services/playlists.ts:38-76 | Once the create call is made, a thrown error and any failed status end the process. |
| Playlists.CatalogIds | src/services/playlists.ts:90-97 | The ids are exactly the non-empty `catalogId`s of the tracks, at most one per track, and never `""`. |
| Playlists.CatalogIdsAll | src/services/playlists.ts:90-97 | When every track has an id, the ids are the tracks' ids, in order. |
| Playlists.CatalogIdsConcat | src/services/playlists.ts:90-97 | The ids of a concatenation of tracks are the ids of its parts, in order, and a single track contributes its id exactly when it has one. |
| Playlists.GetPlaylistCatalogIds | src/services/playlists.ts:79-111 | It returns exactly on an ok parsed response or a 404. An ok parsed response gives the catalog ids of its tracks, or none when `data` is missing. A 404 gives none. A thrown error is rethrown. |
| Playlists.AddSongToPlaylist | src/services/playlists.ts:113-148 | `DUPLICATE` exactly for a listed song. Otherwise `OK` exactly when the post answered ok, 201 or 204, and `ERROR` for any other status or a thrown error. |
| Playlists.CreatedStatusesAreOk | src/services/playlists.ts:133 | The 201 and 204 tests add nothing to `ok`. |
| Convert.FileStem | src/commands/convert.ts:16-17 | Splitting on `/`, taking the last part (the whole path when it is empty), splitting that on `.` and taking the first part gives the text after the last `/`, cut before its first `.`. |
| Convert.DerivePlaylistName | src/commands/convert.ts:14-21 | The name is the file name after the last `/`, cut at its first `.`. Every `_` becomes a space and only the first character is upper-cased. |
| Convert.NameOmitsSeparators | src/commands/convert.ts:14-21 | The name has no `_`, no `.`, and no `/` unless the path ends with one. |
| Convert.IsrcRulesReduce | src/commands/convert.ts:84-108 | Rules 1 and 2 imply rule 4, so a candidate passes exactly when its album matches or both seven-character prefixes do. |
| Convert.FirstIsrcPick | src/commands/convert.ts:76-109 | The chosen id is that of the first candidate passing any rule, all earlier ones named and failing. It matches nothing exactly when every candidate is named and fails. A nameless candidate reached first abandons the row. |
| Convert.EarlierCandidateWins | src/commands/convert.ts:76-109 | A passing candidate preceded only by failing ones is chosen, whatever later candidates pass. |
| Convert.SelectIsrc | src/commands/convert.ts:76-109 | The candidate loop with `break` yields `FirstIsrcPick`. |
| Convert.IsrcPhase | src/commands/convert.ts:72-110 | An empty ISRC matches nothing. Otherwise the pick is the first-pick rule over the songs the ISRC search returns, so the test for an empty result changes nothing. |
| Convert.IsrcStage | src/commands/convert.ts:72-110 | The statements yield `IsrcPhase`. An empty ISRC, or an ISRC search with no songs, matches nothing. Otherwise the pick is the first-pick rule over the search's songs. |
| Convert.Resolve | src/commands/convert.ts:72-143 | A truthy ISRC pick is the track, found by ISRC. Otherwise, unless a nameless candidate abandoned the row, a truthy text-search id is the track, found by text, and with no truthy id the row is unresolved. A found id is replaced by its equivalent. The row is abandoned exactly when a nameless candidate is reached. |
| Convert.FindTrackId | src/commands/convert.ts:69-124 | A non-empty ISRC pick is the id, found by ISRC. Otherwise the id is the text search's answer, found by text. A truthy id counts once, for the search that found it. |
| Convert.ResolveRow | src/commands/convert.ts:67-143 | The statements yield `Resolve` and count a found track once, in `isrcBased` or `textBased` by the search that found it. |
| Convert.NeverDuplicate | src/commands/convert.ts:146-177 | The add after the membership test never answers `DUPLICATE`. |
| Convert.Outcome | src/commands/convert.ts:129-186 | Abandoned exactly for a broken row, and not found exactly for an unresolved one. A resolved song counts as already present exactly when it is in the ids. It counts as added exactly when it is new and the add call succeeds, and as failed exactly when it is new and the call does not. The add never answers `DUPLICATE`. |
| Convert.Record | src/commands/convert.ts:111-186 | Each row not abandoned adds one to `converted` or `failed`. A song found by ISRC adds one to `isrcBased`, one found by text adds one to `textBased`. Only an added song is appended to the ids and counted as converted. Earlier no-result lines stay. A song not found appends `title \| artist \| album => NOT FOUND`, a failed add appends the same line ending in UNABLE TO ADD TO PLAYLIST, and no other outcome appends a line. |
| Convert.Settle | src/commands/convert.ts:145-186 | After the searches: a present song fails, others are added, and the bookkeeping is `Record` of the outcome. |
| Convert.ProcessRow | src/commands/convert.ts:59-186 | The row task is one `Step`. |
| Convert.RunFrom | src/commands/convert.ts:54-59 | The run from row `i` is the step on row `i`, then the run from `i + 1`. |
| Convert.RunSplit | src/commands/convert.ts:54-56 | A run over consecutive slices is the run over their concatenation. |
| Convert.RunCountsEveryRow | src/commands/convert.ts:45-186 | Each row counts once in `converted`, `failed` or the abandoned rows, and `total` is unchanged. |
| Convert.NoCrashWithoutBrokenRows | src/commands/convert.ts:77-82 | No row is abandoned when no row reaches a nameless candidate. |
| Convert.TotalsAddUp | src/commands/convert.ts:45-186 | With no nameless candidates, `converted + failed == total == rows.length` at the end. |
| Convert.RunKeepsCountersConsistent | src/commands/convert.ts:111-177 | A run keeps `converted <= isrcBased + textBased <= converted + failed`. |
| Convert.FoundBounds | src/commands/convert.ts:45-186 | At the end, `converted <= isrcBased + textBased <= total`. |
| Convert.RunOnlyAppendsNewIds | src/commands/convert.ts:146-170 | The list of ids only grows at its end, and an id already in it is never pushed again. |
| Convert.AddedSongsEndUpPresent | src/commands/convert.ts:132-170 | Every song a row resolves to whose add call succeeds is in the ids afterwards: it was present or it was added. |
| Convert.ResolvedSongsEndUpPresent | src/commands/convert.ts:132-170 | When every add succeeds, every song a row resolves to is in the ids afterwards. |
| Convert.PresentOrFailingConvertNothing | src/commands/convert.ts:146-170 | Rows each of whose songs is present already or fails to be added convert nothing and append nothing. |
| Convert.PresentSongsConvertNothing | src/commands/convert.ts:146-152 | Rows whose songs are all present already convert nothing and append nothing. |
| Convert.SecondRunConvertsNothing | src/commands/convert.ts:146-170 | Re-running the same rows against the same replies, on a playlist holding what the first run left, converts nothing and appends nothing, whether or not some adds fail. |
| Convert.Batches | src/commands/convert.ts:54-56 | Each batch holds 1 to `batchSize` rows. |
| Convert.BatchesCoverRows | src/commands/convert.ts:54-56 | The batches, concatenated in order, are the rows. |
| Convert.BatchStartIsProduct | src/commands/convert.ts:54 | The loop index at pass `b`, reached by adding `size` `b` times, is `b * size`. |
| Convert.BatchAt | src/commands/convert.ts:54-56 | Batch `b` is the slice of the rows from `BatchStart(b, size)` (that is `b * size`) to `min(BatchStart(b, size) + size, rows.length)`. |
| Convert.NextBatch | src/commands/convert.ts:54-58 | The rows left from batch `b` on start with batch `b`. Running them is running batch `b`, then the rows left from batch `b + 1` on. |
| Convert.ProcessBatch | src/commands/convert.ts:57-188 | A batch's rows, processed in order, give the run over the batch. |
| Convert.BatchStep | src/commands/convert.ts:54-56 | The slice a pass takes is batch `b`. Running the rows from `i` on is running that slice, then the rows after it, which are none once `i + size` reaches the end. |
| Convert.RunBatch | src/commands/convert.ts:54-58 | The `b`-th pass processes exactly `Batches(rows, batchSize)[b]`. What is left to run afterwards starts at `i + batchSize`, or is nothing past the end. |
| Convert.ProcessRows | src/commands/convert.ts:54-198 | The batch loop gives the run over all rows, in order. |
| Convert.ConvertPlaylist | src/commands/convert.ts:23-201 | The command is `Conversion`: exit, thrown id listing or CSV error, or the run over the rows from the initial `Stats` and the playlist's ids. |
| Convert.Conversion | src/commands/convert.ts:23-201 | The command exits exactly when `getOrCreatePlaylist` does, and with its reason. It throws the id listing's error exactly when that listing throws, and the CSV error exactly when the set-up succeeded and reading fails. A completed run counts every row of the file once, as converted, failed or abandoned. |

## Left out

- `src/services/html.ts` (fetching a result's page and parsing its release date) is not part of this model. It is the oracle `DateOracle`.
- `src/services/appleSession.ts`, `src/config.ts` and `src/cli.ts` are not part of this model. Requests are replies fixed in advance; configuration is the `Env` value; command-line handling and printing are outside the core.
- `escapeApostrophes` (from `src/utils/string`) is not part of this model, and neither is `encodeURIComponent`; both are function parameters. `toLowerCase`/`toUpperCase` map ASCII letters only.
- File I/O: `readFile` is replaced by the file's content, and `appendLineToFile` by the list `failureLines`. The no-result file name is not modelled, and neither is wrapping read errors in `CsvFormatError`.
- Console logging, and the log counter `n`.
- Timing: the per-row delay, the pacing between batches, the 200 ms wait after creating a playlist and the `setTimeout` sleep lengths are not modelled. The clock readings around each `wait` are parameters. The random jitter of the backoff is left out, and each backoff is recorded as `baseDelay * 2^i`.
- Concurrency: the rows of a batch run under `Promise.allSettled`, but the model processes them one after the other. The race between the membership test and the push on `existingTrackIds` is therefore not modelled.
- Numbers: token counts are integers and rates exact rationals, not doubles. The statistics percentage in `src/cli.ts` is not modelled.
- Convert.ConvertPlaylist: requires `batchSize >= 1`, a whole number, whereas the source's batch size is `Number(...)` of a prompt answer (src/config.ts:83). The sizes this excludes behave as follows in the source. With 0 or a negative size the loop never ends. With NaN (a non-numeric answer) it takes one empty `slice` and processes no row. With a fractional size the slices are uneven but cover the same rows once each, in the same order, and Infinity gives one batch of all rows.
- Convert.ProcessRows: requires `batchSize >= 1`, leaving out 0, negative, NaN, fractional and infinite sizes, for the same reasons.
- Limiter.RateLimiter.constructor: requires `maxTokens >= 1` and `period > 0`. The source divides by `period`, and its only instance uses 19 and 1.
- Limiter.RateLimiter.Wait: requires the limiter invariant `tokens <= maxTokens`, which every limiter has from construction on.
- Convert.Settle: the branch for a `DUPLICATE` answer is unreachable in a sequential run, because the membership test before the add already excludes it.
- Convert.SamePrefixes: the seven-character prefixes count Unicode characters, while `substring(0, 7)` counts UTF-16 code units. The two differ for names holding characters outside the Basic Multilingual Plane.
- Convert.DerivePlaylistName: the first character is one Unicode character, while `charAt(0)` is one UTF-16 code unit. The two differ for names starting with a character outside the Basic Multilingual Plane.
- Match.TextMatch: the iTunes `trackId` is taken as a string, as the source's return type declares.
- Errors thrown inside the row task other than a nameless ISRC candidate cannot happen in the model: none of the services the task calls throws.
