# TikTok One creator crawler: a Dafny model of its data logic

The crawler logs into the TikTok One creator marketplace, searches each KOL
(a creator account) by name, opens the creator's page and captures the
JSON responses of the creator API. Those responses are merged into one
profile, which the crawler prints. The repository also holds a PostgreSQL
repository (content interests and brands upserted in bulk, a dynamic
UPDATE of `social_profiles`), a MongoDB country-code lookup and a helper
that reshapes percentage lists; in the files modelled nothing calls them,
and the crawler only prints the merged profile.

This project models the deterministic logic of the crawler and of those repositories:

- `crawler.dfy` (module `Crawler`) covers `crawler_tto_2.go`:
  - the filters deciding what reaches the merger: the trimmed, case-sensitive name gate, the `"page"` target filter and the response-URL substring filter;
  - `parseUserData`, which folds the captures into six lists and reports whether all six are non-empty. The function is modelled twice: as an imperative method with the source's six local variables, and as a specification function with lemmas about it.
- `percent_data.dfy` (module `PercentData`) covers `convertibleNumeric` and `ConstructPercentData` from `pkg/utils/parse_user_data.go`.
- `social_profile.dfy` (module `SocialProfile`) covers `pkg/postgre/social_profile_repository.go`:
  - the two batched `INSERT ... VALUES ($1, ...), (...)` builders and their argument lists;
  - the name-to-id fold over the selected rows;
  - the transaction error ladder of the two upserts;
  - the dynamic `UPDATE ... SET col = $k, ..., updated_at = $m+1 WHERE id = $m+2` of `UpdateTTOUser`.
- `country_codes.dfy` (module `CountryDetail`) covers the cursor loop of `GetCountryCodes` and `processField` from `pkg/mongodb/country_detail_repository.go`.
- `go_strings.dfy` (module `GoStrings`) models the Go library functions the core calls:
  - `strings.Contains`, `strings.TrimSpace`, `strings.ToUpper` and `strings.Join`;
  - the decimal rendering of `$%d`, together with its parser.
- `go_values.dfy` (module `GoValues`) models the Go `interface{}` values that the maps and the database arguments carry.
- `wrappers.dfy` (module `Wrappers`) holds the `Option` and `Result` datatypes.

The outside world is a parameter of the model:
- The database and cursor replies are records of booleans and rows.
- The methods return the statements they would send.
- Go's unspecified map iteration order is a sequence `order`.
- The float conversions, `fmt`'s `%v`, `json.Marshal` and the value of `utils.COUNTRY_UNKNOWN` are function or string parameters.

Two behaviours of the merge differ from what a reader might expect, and the model follows the code in both:
- A first-non-empty-wins merge that never un-sets a populated list would be the natural intent. In the code, `len(x) > 0 || x != nil` reduces to `x != nil`. A later capture therefore replaces a list whenever its own list is non-nil, even when it is an empty JSON array. `Crawler.EmptyArrayOverwritesEarlierList` exhibits this: a populated category list is replaced by `[]`.
- A partial merge might be expected to return what was gathered. The code returns nil and `false` (`Crawler.ParsedUserData`).

## Model

| member | source | states |
|---|---|---|
| Crawler.NameGate | crawler_tto_2.go:311-314 | the crawl proceeds iff the card text lacks "No results found" and the trimmed card name equals the searched name exactly |
| Crawler.AfterSearch | crawler_tto_2.go:296-314 | since the card text is never assigned, the crawl stops iff the trimmed name differs from the KOL name, returning the name, an empty capture list and no error |
| Crawler.NameGateIsCaseSensitive | crawler_tto_2.go:311 | surrounding spaces are ignored but letter case is not: " Alice " matches "Alice", "Alice" does not match "alice" |
| Crawler.ForwardedTargets | crawler_tto_2.go:324-331 | every created target of type exactly "page" has its id forwarded; every forwarded id comes from such an event; other events forward nothing |
| Crawler.ForwardedOfOne | crawler_tto_2.go:324-331 | a single event forwards its id iff it is a created "page" target, and nothing otherwise |
| Crawler.ForwardedKeepsEventOrder | crawler_tto_2.go:324-331 | the listener keeps event order: the ids of a concatenation of events are the ids of each part, concatenated |
| Crawler.FirstForwardedIsFirstPage | crawler_tto_2.go:324-343 | the id read first from the channel is that of the first created "page" target; nothing is forwarded iff no event is one |
| Crawler.Captured | crawler_tto_2.go:358-389 | every capture is the url, status and decoded body of a matching, decoded event; every matching, decoded event is captured |
| Crawler.CapturedKeepsEventOrder | crawler_tto_2.go:358-389 | the capture list keeps event order: the captures of a concatenation of events are the captures of each part, concatenated |
| Crawler.CapturedOfOne | crawler_tto_2.go:358-389 | a single event yields its url, status and body iff its URL matches and its body decoded, and nothing otherwise |
| Crawler.MatchesPatternIffOccurs | crawler_tto_2.go:360-362 | the URL filter passes iff the pattern occurs at some position of the URL |
| Crawler.Merge | crawler_tto_2.go:553-603 | the loop stops reporting true only when all six lists are non-empty, and, started from a non-full state, reports true iff it ends full |
| Crawler.ParsedUserData | crawler_tto_2.go:604-615 | the flag is true iff a user is returned; a returned user has six non-empty lists; empty input gives (nil, false) |
| Crawler.ParseUserData | crawler_tto_2.go:545-616 | the imperative loop over six local lists returns exactly the specification's result |
| Crawler.Effective | crawler_tto_2.go:556-562 | the creators the loop reads, one at most per capture |
| Crawler.EffectiveAppend | crawler_tto_2.go:555-562 | the creators read from two capture lists in a row are those of each list, in order |
| Crawler.InertCaptureIgnored | crawler_tto_2.go:556-562 | a capture with a nil body or no creators changes nothing, wherever it sits among the captures |
| Crawler.MergeReadsOnlyFirstCreators | crawler_tto_2.go:556-562 | captures without a body or without creators are skipped, and only the first creator of each capture is read |
| Crawler.SameFirstCreatorsSameResult | crawler_tto_2.go:556-562 | two capture lists with the same first creators give the same result, whatever else they hold |
| Crawler.AbsorbedPrefix | crawler_tto_2.go:564-591 | absorbing a prefix of creators equals absorbing its head, then the rest of the prefix |
| Crawler.MergeStopsAtFirstFull | crawler_tto_2.go:594-602 | the loop reports full at the first prefix of creators whose absorption is full; when no prefix is full it absorbs all of them and reports false |
| Crawler.LastSome | crawler_tto_2.go:564-591 | the latest non-nil entry, or the initial value when every entry is nil |
| Crawler.LastSomeFront | crawler_tto_2.go:564-591 | the latest non-nil entry can be computed front to back, as the loop does |
| Crawler.AbsorbedIsLatestNonNil | crawler_tto_2.go:564-591 | each of the six lists, independently, is the latest non-nil list among the creators read (last-non-nil-wins) |
| Crawler.ProjectTail | crawler_tto_2.go:564-591 | projecting one section out of the creators commutes with dropping the first creator |
| Crawler.LaterCapturesIgnored | crawler_tto_2.go:594-602 | once the merge is full, appending captures does not change the result |
| Crawler.EmptyArrayOverwritesEarlierList | crawler_tto_2.go:564-567 | a later empty category array replaces an earlier populated one, and the merge then is not full |
| Crawler.ParsedFullIffSomePrefixFull | crawler_tto_2.go:594-615 | the result is full iff some prefix of the creators read absorbs to full; the returned profile is that of the shortest such prefix |
| PercentData.ConvertibleNumeric | pkg/utils/parse_user_data.go:10-29 | a float64 is kept, a float32 widened, an int converted, a string parsed; nil, an unparsable string and any other type give 0 |
| PercentData.PercentItem | pkg/utils/parse_user_data.go:43-65 | "key" is removed; outside "content_interest", name is the rendering of item[keyItem] and value is the converted ratio; for "content_interest", name is untouched and value is converted only if present; every other entry is kept |
| PercentData.ConstructPercentData | pkg/utils/parse_user_data.go:33-70 | an empty input gives nil; otherwise one reshaped row per input row, in order |
| SocialProfile.FlattenLength | pkg/postgre/social_profile_repository.go:62-64 | rows of equal width w, n of them, flatten to w*n arguments |
| SocialProfile.FlattenAt | pkg/postgre/social_profile_repository.go:62-64 | argument w*i+j of the flattened rows is entry j of row i |
| SocialProfile.IndicesConsecutive | pkg/postgre/social_profile_repository.go:56-65 | the placeholder groups of n rows of width w number $1 to $w*n consecutively |
| SocialProfile.PlaceholdersBindRows | pkg/postgre/social_profile_repository.go:56-65 | placeholder w*i+j+1 is bound to entry j of row i, and the highest placeholder is the argument count |
| SocialProfile.PlaceholderReadsBack | pkg/postgre/social_profile_repository.go:58-59 | the text `$k` reads back as argument number k |
| SocialProfile.GroupNamesItsIndices | pkg/postgre/social_profile_repository.go:57-59 | the j-th placeholder of a VALUES group reads back as the j-th number it was built from |
| SocialProfile.ContentInsertBindsRows | pkg/postgre/social_profile_repository.go:54-65 | group i of the VALUES text is the group of $6i+1 .. $6i+6, each placeholder reading back as its number and bound to name i, the user id twice, the time twice and status 1; 6n arguments in all |
| SocialProfile.BrandInsertBindsRows | pkg/postgre/social_profile_repository.go:140-148 | group i of the VALUES text is the group of $8i+1 .. $8i+8, each placeholder reading back as its number and bound to title i, positioning 1, the user id twice, the time twice, the client id and status 1; 8n arguments in all |
| SocialProfile.ContentArgsAt | pkg/postgre/social_profile_repository.go:56-65 | the content arguments number 6n, and argument 6i+j, named by placeholder $6i+j+1, is column j of row i |
| SocialProfile.BrandArgsAt | pkg/postgre/social_profile_repository.go:139-148 | the brand arguments number 8n, and argument 8i+j, named by placeholder $8i+j+1, is column j of row i |
| SocialProfile.ContentValuesExtend | pkg/postgre/social_profile_repository.go:56-73 | the joined VALUES list of n+1 rows is that of n rows, a comma, and the group of $6n+1 .. $6n+6 |
| SocialProfile.BrandValuesExtend | pkg/postgre/social_profile_repository.go:139-156 | the joined VALUES list of n+1 rows is that of n rows, a comma, and the group of $8n+1 .. $8n+8 |
| SocialProfile.ContentValueRows | pkg/postgre/social_profile_repository.go:50-65 | the loop builds group i as the six placeholders from 6i+1, with the arguments of the content rows |
| SocialProfile.BrandValueRows | pkg/postgre/social_profile_repository.go:135-148 | the loop builds group i as the eight placeholders from 8i+1, with the arguments of the brand rows |
| SocialProfile.IdMapIsLastRowPerName | pkg/postgre/social_profile_repository.go:94-101 | a name is a key iff some row has it, and its id is that of the last such row |
| SocialProfile.AllScanned | pkg/postgre/social_profile_repository.go:94-99 | the rows scan iff every row scans, and then they are those rows |
| SocialProfile.ScanIDs | pkg/postgre/social_profile_repository.go:174-181 | the scan loop returns the name-to-id map of the rows, or the scan error at the first row that fails |
| SocialProfile.Transaction | pkg/postgre/social_profile_repository.go:37-113 | success iff begin, insert, select, every row scan, iteration and commit all succeed; on success the map of the scanned rows, after sending the insert and then the select |
| SocialProfile.InsertThenSelect | pkg/postgre/social_profile_repository.go:72-113 | the insert-select-scan-commit steps return exactly the transaction's outcome |
| SocialProfile.UpsertContentInterestsAndGetIDs | pkg/postgre/social_profile_repository.go:32-114 | an empty list gives an empty map and sends nothing; otherwise the outcome of the batched content INSERT of n rows and the ANY($1) SELECT |
| SocialProfile.UpsertBrandsAndGetIDs | pkg/postgre/social_profile_repository.go:118-193 | an empty list gives an empty map and sends nothing; otherwise the outcome of the batched brand INSERT of n rows and the ANY($1) SELECT |
| SocialProfile.UpdateTransaction | pkg/postgre/social_profile_repository.go:263-291 | no error iff begin, exec and commit all succeed; the UPDATE is sent iff the transaction began |
| SocialProfile.SurvivorsSound | pkg/postgre/social_profile_repository.go:208-246 | every SET clause belongs to a visited key and carries that key's mapped column and the parameter its value yields |
| SocialProfile.SurvivorsAreTheBoundKeys | pkg/postgre/social_profile_repository.go:208-246 | a key gets a SET clause iff the mapping visits it and its value is present, non-nil and (for a map or slice) marshals; it carries its mapped column and that parameter |
| SocialProfile.NoSurvivorsIffNothingBound | pkg/postgre/social_profile_repository.go:213-250 | there is no SET clause iff every mapped key is missing, nil or fails to marshal |
| SocialProfile.UpdateBindsParams | pkg/postgre/social_profile_repository.go:243-261 | with m clauses, clause k reads `col = $k+1`, whose placeholder reads back as k+1 and is bound to parameter k; $m+1 reads back as m+1 and is the time, $m+2 as m+2 and is the user id, the last of m+2 parameters |
| SocialProfile.ContentInterestColumnRepeats | pkg/postgre/social_profile_repository.go:198-206 | when two keys that map to content_interest both survive, that column appears twice in the SET list, in any iteration order |
| SocialProfile.CollectAssignments | pkg/postgre/social_profile_repository.go:208-246 | the loop yields one numbered clause and one parameter per surviving key, in iteration order |
| SocialProfile.UpdateTTOUser | pkg/postgre/social_profile_repository.go:196-292 | no survivor: nil error and no statement; otherwise the transaction outcome for the UPDATE of the survivors |
| CountryDetail.TableKeysAreUpperCase | pkg/mongodb/country_detail_repository.go:69-71 | every key of the table is a non-empty, upper-cased code |
| CountryDetail.TableHasCodeIffEntered | pkg/mongodb/country_detail_repository.go:58-71 | a code is a key iff some decoded document with a non-empty code upper-cases to it |
| CountryDetail.TableIsLastDocumentPerCode | pkg/mongodb/country_detail_repository.go:64-71 | the name stored for a code is that of the last document entering it: its official name, or COUNTRY_UNKNOWN when that is empty |
| CountryDetail.InertDocumentIgnored | pkg/mongodb/country_detail_repository.go:58-71 | a document that fails to decode or has an empty code changes nothing, wherever it is |
| CountryDetail.GetCountryCodes | pkg/mongodb/country_detail_repository.go:49-78 | a failing find gives no map and an error; otherwise the table of the documents, with an error iff the cursor reports one |
| CountryDetail.ProcessField | pkg/mongodb/country_detail_repository.go:81-90 | true with the string itself for a string, false with "" for any other value |
| GoStrings.ContainsIffOccurs | crawler_tto_2.go:311 | `strings.Contains` holds iff the substring occurs at some position |
| GoStrings.LeadingSpaces | crawler_tto_2.go:311 | the leading characters counted are all white space, and the next one is not |
| GoStrings.TrailingStart | crawler_tto_2.go:311 | the characters after the returned index are all white space, and the one before it is not |
| GoStrings.TrimSpace | crawler_tto_2.go:311 | the result is an infix with only white space around it, and it neither starts nor ends with white space |
| GoStrings.ToUpper | pkg/mongodb/country_detail_repository.go:70 | same length, each character upper-cased |
| GoStrings.ToUpperIdempotent | pkg/mongodb/country_detail_repository.go:70 | upper-casing twice is upper-casing once |
| GoStrings.JoinSnoc | pkg/postgre/social_profile_repository.go:73 | `strings.Join` of one more part appends the separator and that part |
| GoStrings.NatToString | pkg/postgre/social_profile_repository.go:58-59 | `%d` of a natural is a non-empty string of digits without a leading zero |
| GoStrings.ParseNatToString | pkg/postgre/social_profile_repository.go:58-59 | reading the digits of `%d` back gives the number again |
| GoStrings.NatToStringInjective | pkg/postgre/social_profile_repository.go:58-59 | different numbers render differently, so placeholders are distinct |

## Left out

- Browser automation is not modelled. This covers the chromedp action sequences, sleeps, clicks, emulation settings, `processSingleKol` apart from its filters, `process_single_kol.go`, `crawlerKols`, `simulateLogin`, `visitHomePage` and the option builders. All of it drives an external browser.
- Concurrency is not modelled: the goroutines fetching bodies, the `sync.WaitGroup`, the unsynchronised `append` to `collectedData` (crawler_tto_2.go:366-389), the target channel and the timeouts. `Crawler.Captured` takes the fetches as completing in event order. The real order depends on goroutine scheduling.
- Crawler.ForwardedTargets: lists every "page" target, in event order. The channel has a buffer of one and only its first id is read (`Crawler.FirstForwardedIsFirstPage` names that id); the blocking of later sends on the full channel is not modelled.
- The crawl loop's use of the merge (crawler_tto_2.go:519-520) only prints the profile and is not modelled. On a partial merge it dereferences the nil `*TTOUser` that `parseUserData` returns, which panics in Go.
- Fetching and JSON-decoding a body are one parameter: the decoded response, or `None` when either step failed. Element contents such as labels, ratios and videos are opaque fields.
- PercentData.ConvertibleNumeric: float32 widening, int-to-float conversion and `strconv.ParseFloat` are function parameters, because Dafny has no IEEE floats. A float64 is its 64-bit pattern.
- PercentData.PercentItem: the `%v` rendering of `item[keyItem]` is a function parameter. The `log.Printf` call is left out.
- The database driver is not modelled: connecting, `Begin`, `Exec`, `Query`, `Scan`, `Commit` and the deferred `Rollback`. Their outcomes are parameters. The methods return the statements they would send, not their effect on the tables.
- `time.Now()` is an integer parameter `now`.
- SocialProfile.UpdateTTOUser: Go's random map iteration order is a parameter `order`, which must visit each of the seven mapped keys once. `json.Marshal` is a parameter. The `log.Printf` calls and the panic-recovering deferred rollback are left out.
- SocialProfile.UpdateTTOUser: a typed nil inside an `interface{}` (such as a nil `[]interface{}`) is not distinguished from a plain nil.
- The nil-versus-empty distinction of the returned Go maps and slices is not modelled, except for `ConstructPercentData`'s nil slice and the nil map of a failed `GetCountryCodes`.
- GoStrings.ToUpper: upper-cases ASCII letters only. Go's `strings.ToUpper` follows full Unicode case mapping. ISO codes are ASCII.
- Strings are sequences of characters. UTF-8 byte-level details of Go strings are not modelled.
- CountryDetail.GetCountryCodes: the value of `utils.COUNTRY_UNKNOWN` is defined in a file that is not part of this model, so it is a parameter `unknown`. The MongoDB connection, `Find` with its projection, `Decode` and the `log.Printf` warnings are left out. Their outcomes are parameters.
- CountryDetail.ProcessField: the `fmt.Println` side effect is left out.
- `pkg/utils/format_datetime.go` is not part of this model: it wraps the time-zone and date-parsing library.
- `main.go`, the `db.go` connection helpers and `models.go` are not part of this model: they are I/O setup and type declarations.
- `GetSocialProfileCrawlTTO` is a plain query with a scan loop and is not part of this model.
