# go-rank-my-music in Dafny

go-rank-my-music enriches an iTunes library with ratings from rateyourmusic.com.
It has four stages:

1. It reads album titles and artists from the library's XML.
2. It turns each name into the slug rateyourmusic.com uses in its URLs.
3. It requests each album's page, pausing a random time between requests.
4. It cuts the average rating and the number of ratings out of the page and stores them in Redis sets.

A small web handler reads the ratings back. The repository has two generations of the scrape loop:
- `rank_my_music.go`, the current one, skips albums already cached or known to be missing;
- `rank-my-music.go`, the earlier one, requests every album and records found albums instead.

This project models all of that and proves what the code promises.

| module (file) | models |
|---|---|
| `GoStrings` (go_strings.dfy) | `strings.Index`/`Contains`, `Split`, `Join`, `ReplaceAll`, `Trim`, `TrimLeft`, `TrimRight`, `TrimSpace` and `ToLower` on ASCII text, and the field cut `Split(Split(s, open)[1], close)[0]` that the extractor and the importer share. |
| `Library` (library.dfy) | `newAlbum` and `generateAlbums` from `import_library.go`. |
| `Normalizer` (normalizer.dfy) | `formatAlbumName`, `formatArtistName` and the regular expression `[^-_/a-zA-Z0-9]+` with an empty replacement. |
| `Extractor` (extractor.dfy) | `getRatingsFromResponseString`, including its index and slice-bounds panics. |
| `Redis` (redis.dfy) | The store as a map from keys to sets of strings; a `Store` class whose `SAdd` updates it. |
| `Crawl` (crawl.dfy) | What the two loops share: the URL, the cache key, the rewriting of an album with its slugs, reading a page, and the paced request/sleep trace. |
| `Scraper` (scraper.dfy) | `scrapeDataFromRYM`, `publishRatings`, `publishMissingAlbum` and `contains`. |
| `Lookup` (lookup.dfy) | The reply rule of the `/rating/:albumName` handler. |
| `LegacyScraper` (legacy_scraper.dfy) | The loop of `main` in `rank-my-music.go`, with its `publishRatings` and `publishFoundAlbum`. |
| `ScraperProperties`, `LegacyProperties` | Whole-run properties of the two loops. |
| `NormalizerExamples` | The formatters on concrete names. |

**Scrape loops.** Each loop is an imperative method over an `array<Album>` and a `Store`.
- Each entry is overwritten in place with its slugs, as lines 83-84 of `rank_my_music.go` do.
- The method is proved against a specification function `Run`: `Run` folds a per-album step `Visit` over the rewritten albums.
- A run is described by a `Scrape` value:
  - the store;
  - the trace of `Fetch(url)` and `Sleep(seconds)` events;
  - the albums reached;
  - the number of pages read;
  - whether the extractor panicked.
- A panic in the extractor stops the run there. In Go it would crash the goroutine (and the program); the model records it and ends the run.

**Inputs.** The page a URL returns is a parameter `fetch: string -> string`. The k-th draw of `rand.Intn` is a parameter `intn: nat -> int`; a lemma that needs the draws to be in range says so with `DrawsBelow`. The properties are stated over `read`, the extraction of the page at a URL (`GetRatings(fetch(url))`), so that they do not depend on the HTML.

**The two Go files share code.** `formatAlbumName`, `formatArtistName` and `getRatingsFromResponseString` are textually identical in `rank_my_music.go` and `rank-my-music.go`. They are modelled once. The rows below cite the current file and name the earlier file's lines in the third column.

**Behaviour worth noting.**
- **Qualifiers.** `" ep"`, `"deluxe"`, `"single"`, `"remastered"`, `"edition"`, `"expanded"` and `"version"` are deleted as substrings wherever they occur, inside words too. `"38"` becomes `"and"` wherever it occurs.
- **Empty slugs.** A slug that comes out empty goes into the URL and is requested like any other.
- **Pages.** A page without `avg_rating` yields two empty strings, and the current loop then records the album as missing. A page the code's indexing or slicing does not fit makes the extractor panic: fewer than three characters after `avg_rating`, no `num_ratings`, or no `<span >` in its field.
- **The average-rating field** ends at the first `</span>` after the `avg_rating` marker, or at a second `avg_rating` marker if one comes first. This is because the code takes the second piece of `strings.Split(html, "avg_rating")`.
- **The earlier loop's writes.** Each `SADD` of `rank-my-music.go` passes an extra member `0`. So `FOUND_ALBUMS` and every rated album's key also gain the string `"0"`.

## Model

| member | source | states |
|---|---|---|
| GoStrings.Index | rank_my_music.go:154 | The result is -1 exactly when `pat` occurs nowhere. Otherwise it is a position where `pat` occurs, with no occurrence before it. |
| GoStrings.Contains | rank_my_music.go:154 | True exactly when Index finds the pattern, so by Index's contract exactly when the pattern occurs somewhere in the text. |
| GoStrings.Split | rank_my_music.go:155-160 | There are at least two pieces exactly when the separator occurs. The first piece is a prefix of the text. No piece contains the separator. |
| GoStrings.SplitJoinRoundTrip | rank_my_music.go:155 | Joining the pieces of a split with the separator gives back the original text. |
| GoStrings.ReplaceAllIsSplitJoin | rank_my_music.go:208-217 | ReplaceAll equals splitting at the pattern and joining with the replacement (an independent definition). |
| GoStrings.ReplaceAllIntroducesNothing | rank_my_music.go:208-217 | Every character of the result comes from the text or from the replacement. |
| GoStrings.ReplaceAllRemovesChar | rank_my_music.go:217 | Replacing a character by text without it leaves no occurrence of that character. |
| GoStrings.ReplaceCharIsSubstitution | rank_my_music.go:216-217 | Replacing one character by another keeps the length and changes exactly the positions holding that character. |
| GoStrings.ReplaceCharMatches | rank_my_music.go:216-217 | A text that is the character-wise substitution of `s` is the result of ReplaceAll. |
| GoStrings.ReplaceAll | rank_my_music.go:208-217 | For a non-empty pattern: the text up to the first occurrence, then the replacement, then the rest with its occurrences replaced in turn. ReplaceAllIsSplitJoin ties it to Split and Join. |
| GoStrings.TrimLeft | rank_my_music.go:219 | The result is a suffix of the input that does not start with a cut-set character. Everything removed lies in the cut set. |
| GoStrings.TrimRight | rank_my_music.go:219 | The result is a prefix of the input that does not end with a cut-set character. Everything removed lies in the cut set. |
| GoStrings.Trim | rank_my_music.go:219 | The result is the slice of the input that starts where TrimLeft stops. Every character cut off before or after it is in the cut set, and neither end of the result is. |
| GoStrings.TrimSpace | rank_my_music.go:207 | Trim with ASCII white space as the cut set: what is left is the slice of the input between its leading and trailing white space. |
| GoStrings.TrimSpaceKeepsAbsence | rank_my_music.go:156 | Trimming white space cannot create an occurrence of a pattern. |
| GoStrings.ToLower | rank_my_music.go:207 | The length is kept, each upper-case letter is lowered, every other character is kept, and no upper-case letter is left. |
| Library.NewAlbum | import_library.go:19-22 | The album holds the given title and artist. |
| Library.IsArtistLine | import_library.go:55 | A line containing `<key>Artist</key>`. |
| Library.IsAlbumLine | import_library.go:55-62 | A line containing `<key>Album</key>` and not `<key>Artist</key>`, because the artist branch is tested first and ends the iteration. |
| Library.FieldValue | import_library.go:56-64 | The value is the slice of the line that starts right after the first field opener and ends at the next `</string>`, the next opener or the end of the line, whichever comes first. It contains neither `</string>` nor the opener. |
| Library.LastArtist | import_library.go:50-58 | The holder's value after some lines: the field value of the last artist line, or "" when there is none. LastArtistIsNearest states it. |
| Library.Entries | import_library.go:62-68 | One album per album line, in line order, paired with the holder's artist at that line. There are never more entries than lines. |
| Library.FirstByName | import_library.go:66-69 | De-duplication never lengthens the list and keeps exactly the set of titles of the entries. |
| Library.FirstIndex | import_library.go:66-69 | The first position that carries a given title. |
| Library.NamesMembership | import_library.go:66 | A title is among the names of a list exactly when some album of the list carries it. |
| Library.FirstByNameKeepsFirst | import_library.go:66-69 | Every album kept is the first entry with its title: the first occurrence wins. |
| Library.FirstByNameInOrder | import_library.go:52-69 | The albums kept come in the order in which their titles first appear. |
| Library.FirstByNameDistinct | import_library.go:66-68 | No two albums kept share a title, whatever their artists. |
| Library.AtMostOneAlbumPerAlbumLine | import_library.go:52-72 | There is one entry per album line and at most one album kept per entry. Lines with neither tag add nothing. |
| Library.LastArtistIsNearest | import_library.go:50-58 | The current artist is the value of the nearest artist line above, or "" when no artist line has been read. |
| Library.BothTagsReadAsArtist | import_library.go:55-60 | A line carrying both tags sets the artist and adds no album. |
| Library.NonAlbumLineStep | import_library.go:55-60 | A line that is not an album line leaves the albums kept unchanged. It may change the artist. |
| Library.AlbumLineStep | import_library.go:62-70 | An album line appends its album exactly when the title is new, and keeps the artist. |
| Library.GenerateAlbums | import_library.go:46-74 | The result is the index-out-of-range panic exactly when some tag line lacks its `<string>` field opener. Otherwise the albums are the entries in line order, each paired with the nearest artist above it and de-duplicated by title with the first one winning. |
| Normalizer.DeleteDisallowed | rank_my_music.go:218 | The filter never lengthens its input. |
| Normalizer.DeleteDisallowedKeepsExactlyAllowed | rank_my_music.go:218 | Every character of the output is in the input and outside the regular expression's class. Every such character of the input survives. |
| Normalizer.DeleteDisallowedKeepsCleanText | rank_my_music.go:218 | Text made only of kept characters passes unchanged. |
| Normalizer.DeleteDisallowedAppend | rank_my_music.go:218 | The filter distributes over concatenation. |
| Normalizer.DeleteDisallowedDropsJunk | rank_my_music.go:218 | A run of matched characters between two pieces of text vanishes. |
| Normalizer.DeleteDisallowedDropsTwo | rank_my_music.go:218 | Two runs of matched characters between three clean pieces vanish, and the pieces are kept. |
| Normalizer.DeleteDisallowedDropsAll | rank_my_music.go:218 | Text made only of matched characters is deleted entirely. |
| Normalizer.LowerTrimmedHasNoUpper | rank_my_music.go:207 | After lower-casing and trimming, no upper-case letter remains. |
| Normalizer.ReplaceAllKeepsNoUpper | rank_my_music.go:208-217 | Replacements without upper-case letters introduce none. |
| Normalizer.FinishedSlug | rank_my_music.go:218-219 | Filtering and trimming hyphens from lower-case text without `/` leaves only `-`, `_`, `a`-`z` and `0`-`9`, and the result neither starts nor ends with `-`. |
| Normalizer.FormatAlbumName | rank_my_music.go:206-220 | The slug holds only `-`, `_`, `a`-`z` and `0`-`9` (so no space and no `/`), and neither starts nor ends with `-`. The same function is at rank-my-music.go:165-179. |
| Normalizer.FormatArtistName | rank_my_music.go:223-230 | The slug holds only `-`, `_`, `a`-`z` and `0`-`9`, and neither starts nor ends with `-`. The same function is at rank-my-music.go:182-189. |
| GoStrings.FieldLocated | rank_my_music.go:155-159 | A field is the text right after the first opening marker, up to the next closing marker, the next opening marker or the end. It contains neither marker. |
| GoStrings.NestedPieceLocated | rank_my_music.go:159-160 | A prefix of a located piece is itself located in the page and ends at one of the markers. |
| Extractor.GetRatings | rank_my_music.go:147-163 | A page without `avg_rating` yields ("", ""). With the marker, the function panics exactly when the average-rating segment is shorter than 3, `num_ratings` is missing, or its field has no `<span >`. Otherwise both strings are trimmed, and a non-empty average rating implies both markers are on the page. Identical at rank-my-music.go:106-122. |
| Extractor.AvgRatingLocated | rank_my_music.go:155-156 | The segment starts right after the first `avg_rating` and ends at the next `</span>`, the next `avg_rating` or the end. The average rating is that segment without its first 3 characters, trimmed. |
| Extractor.NumRatingsLocated | rank_my_music.go:158-160 | The number of ratings is read from the text after the first `<span >` of the `num_ratings` field, up to the next `<span >` or the end of the field. That text contains neither tag. |
| Extractor.PieceOfFieldLocated | rank_my_music.go:159-160 | A piece of the `num_ratings` field lies in the page at the field's offset plus its own. |
| Extractor.NumRatingsRead | rank_my_music.go:158-160 | When a rating is found, the number of ratings is the trimmed text NumRatingsLocated places in the page. |
| Extractor.RatingsAreBareText | rank_my_music.go:154-160 | Neither rating contains `</span>`. The average rating contains no `avg_rating`, and the number of ratings contains no `<span >`. |
| Extractor.AvgRatingIsBare | rank_my_music.go:156 | The average rating contains neither `</span>` nor `avg_rating`, the two markers its segment ends at. |
| Redis.Elements | rank_my_music.go:181 | The members of one SADD are exactly its arguments. |
| Redis.Added | rank_my_music.go:181-185 | SADD adds the members to its key and leaves every other key as it was. |
| Redis.AddedTwice | rank_my_music.go:181-185 | Two SADDs on one key add the union of their members. |
| Redis.Store.SAdd | rank_my_music.go:181 | The store after the call is the old store with the members added at the key. |
| Redis.Store.SMembers | rank_my_music.go:58 | The members stored at the key, or the empty set for a key never written. The same call reads the snapshot at line 47 and the cache at line 87. |
| Crawl.ReadPage | rank_my_music.go:101-119 | The ratings are the extraction of the page fetched for the URL. |
| Crawl.Url | rank_my_music.go:98 | BASE_URL, the artist slug, `/` and the album slug. UrlSplitsIntoSlugs states that the slugs can be read back. |
| Crawl.AlbumKey | rank_my_music.go:87 | `ALBUM:` followed by the album name. AlbumKeyInjective states that different names get different keys. |
| Crawl.Paced | rank_my_music.go:139-142 | The trace alternates between a request and a sleep, and the k-th sleep lasts the minimum wait plus the k-th draw. |
| Crawl.PacedWaitsWithin | rank_my_music.go:141 | When the draws come from `rand.Intn(maxWait - minWait + 1)`, every sleep of a paced trace lasts between minWait and maxWait. |
| Crawl.PacedSnoc | rank_my_music.go:101-142 | Appending a request and the sleep using the next draw keeps a trace paced. |
| Crawl.Formatted | rank_my_music.go:83-84 | Both names of a rewritten album are made of slug characters only. |
| Crawl.Rewritten | rank_my_music.go:76-84 | Rewriting keeps the number of albums. |
| Crawl.RewrittenAt | rank_my_music.go:83-84 | The k-th rewritten album is the k-th album rewritten. |
| Crawl.AlbumKeyInjective | rank_my_music.go:87 | Different album names never share an `ALBUM:` key. |
| Crawl.UrlSplitsIntoSlugs | rank_my_music.go:98 | A URL built from slugs starts with BASE_URL, and its path splits at its only `/` into the artist slug and the album slug. |
| Crawl.SplitAtOnlySlash | rank_my_music.go:98 | Two slash-free parts joined by one slash split back into the two. |
| Lookup.RatingReply | rank_my_music.go:59-64 | The reply names the album that was asked for. |
| Lookup.ListedSize | rank_my_music.go:58 | A list of a set's members without repetition is as long as the set. |
| Lookup.LookupReadsStoredSet | rank_my_music.go:55-66 | The lookup says "not found" exactly when the album's key holds fewer than two members. Otherwise it reports two different members of that set, in an order Redis chooses. |
| Lookup.LookupAfterPublish | rank_my_music.go:58-64 | After publishRatings on an uncached album, the lookup reports the two published strings in either order. When they are equal the set collapses to one member and the lookup says "not found". |
| Scraper.SliceContains | rank_my_music.go:233-240 | True exactly when the element is in the slice. |
| Scraper.Skipped | rank_my_music.go:86-95 | An album is skipped when its `ALBUM:` set is non-empty or its name is in the startup snapshot of missing albums. |
| Scraper.RatingsPublished | rank_my_music.go:180-190 | The store after SADD of the average rating and then SADD of the number of ratings, both at the album's key. |
| Scraper.RatingsPublishedAddsBoth | rank_my_music.go:180-190 | The two SADDs of publishRatings add both strings to the album's key and touch no other key. |
| Scraper.MissingPublished | rank_my_music.go:197-203 | The store after SADD of the name at MISSING_ALBUMS. |
| Scraper.Published | rank_my_music.go:122-137 | With a non-empty average rating the ratings are published, otherwise the album is recorded as missing. |
| Scraper.PublishRatings | rank_my_music.go:180-190 | The new store is the old one after publishRatings. |
| Scraper.PublishMissingAlbum | rank_my_music.go:197-203 | The new store is the old one with the name added to MISSING_ALBUMS. |
| Scraper.Publish | rank_my_music.go:122-137 | A non-empty average rating publishes the ratings. An empty one records the album as missing. |
| Scraper.Visit | rank_my_music.go:86-142 | A skipped album (key non-empty, or name in the snapshot) changes no store, trace or count. Any other album's step starts with the request of its URL. Every step reaches its album, and a panicked run stays as it is. |
| Scraper.Run | rank_my_music.go:76-143 | The albums reached are a prefix of the input, and all of it unless the run panicked. |
| Scraper.RunExtends | rank_my_music.go:76-143 | A run over `i` albums followed by one step is the run over `i + 1`. |
| Scraper.RunAfterPanic | rank_my_music.go:119 | After a panic the remaining albums change nothing. |
| Scraper.RunEnds | rank_my_music.go:76-143 | A run that panicked or finished is the run over all albums. The array then holds the albums reached, followed by the untouched raw albums. |
| Scraper.FetchAlbum | rank_my_music.go:97-142 | The store, trace, count and panic flag after the method are what Visit gives for a non-skipped album. |
| Scraper.ScrapeAlbum | rank_my_music.go:86-142 | The same for any album, including the skip rule. |
| Scraper.ScrapeEntry | rank_my_music.go:83-142 | Entry `i` is overwritten with its slugs and handled as Visit says, which extends the run by one album. |
| Scraper.ScrapeLoop | rank_my_music.go:76-143 | The store, trace and panic flag are those of Run over the rewritten albums. The array holds the albums reached, rewritten, followed by the raw rest. |
| Scraper.ScrapeDataFromRym | rank_my_music.go:73-144 | The same as ScrapeLoop, for the two formatters. |
| ScraperProperties.FetchWritesOneKey | rank_my_music.go:119-137 | After a fetch exactly one key is written: the album's key gains both ratings, or MISSING_ALBUMS gains the name. |
| ScraperProperties.VisitPaced | rank_my_music.go:97-142 | One step keeps the trace paced and counts one fetch per request/sleep pair. |
| ScraperProperties.RunPaced | rank_my_music.go:76-143 | The trace alternates between a request and a sleep, and the k-th sleep uses the k-th draw. A panicked run ends with its unanswered request. |
| ScraperProperties.RunWaitsWithinWindow | rank_my_music.go:141 | Every wait lies in [150, 380] seconds. |
| ScraperProperties.VisitWrites | rank_my_music.go:86-137 | One step only adds to the store, and only at the album's key and MISSING_ALBUMS. |
| ScraperProperties.RunWrites | rank_my_music.go:76-143 | A run only adds to the store, and only at MISSING_ALBUMS and at the keys of the albums reached. |
| ScraperProperties.RecordedGrows | rank_my_music.go:180-203 | What the store records of an album stays recorded when the store grows. |
| ScraperProperties.VisitRecords | rank_my_music.go:86-137 | A step that does not panic leaves its album recorded: cached, in the snapshot, or in MISSING_ALBUMS. |
| ScraperProperties.RunRecordsEveryAlbum | rank_my_music.go:76-143 | After a run without panic, every album of the input is recorded. |
| ScraperProperties.RunAllSkipped | rank_my_music.go:86-95 | When every album is skipped, the run requests nothing and writes nothing. |
| ScraperProperties.SecondRunChangesNothing | rank_my_music.go:47 | Restarting after a run without panic, with the snapshot re-read at startup, requests no page and writes nothing, whatever the pages and draws. |
| ScraperProperties.AlbumKeyIsNotMissingKey | rank_my_music.go:21-22 | No album key is MISSING_ALBUMS. |
| ScraperProperties.MissingLeavesAlbumKey | rank_my_music.go:197-203 | Recording an album as missing leaves its own key as it was. |
| ScraperProperties.UncachedVisit | rank_my_music.go:86-142 | An album neither cached nor in the snapshot, whose page is read, is requested, written and followed by a sleep. |
| ScraperProperties.MissingAlbumRequestedTwice | rank_my_music.go:47 | The snapshot is not refreshed during a run: an album listed twice and found missing the first time is requested twice. |
| ScraperProperties.FoundAlbumRequestedOnce | rank_my_music.go:86-90 | An album found on its first visit is skipped on its second, because its key is read before each request. |
| LegacyScraper.RatingsPublishedAddsThree | rank-my-music.go:139-149 | publishRatings adds the two ratings and "0" to the album's key and touches no other key. |
| LegacyScraper.RatingsPublished | rank-my-music.go:139-149 | The store after SADD of the average rating and `0`, then of the number of ratings and `0`, at the album's key. |
| LegacyScraper.FoundPublished | rank-my-music.go:156-162 | The store after SADD of the name and `0` at FOUND_ALBUMS. |
| LegacyScraper.Published | rank-my-music.go:80-96 | With a non-empty average rating the album is published as found and then its ratings. Otherwise the store is unchanged. |
| LegacyScraper.PublishRatings | rank-my-music.go:139-149 | The new store is the old one after the two SADDs with the extra `0`. |
| LegacyScraper.PublishFoundAlbum | rank-my-music.go:156-162 | The new store is the old one with the name and "0" added to FOUND_ALBUMS. |
| LegacyScraper.Publish | rank-my-music.go:80-96 | A non-empty average rating publishes the album as found and then its ratings. An empty one writes nothing. |
| LegacyScraper.Visit | rank-my-music.go:55-101 | Every step of a run that has not panicked requests its album's URL first. A panicked run stays as it is. |
| LegacyScraper.Run | rank-my-music.go:45-102 | The albums reached are a prefix of the input, and all of it unless the run panicked. |
| LegacyScraper.RunExtends | rank-my-music.go:45-102 | A run over `i` albums followed by one step is the run over `i + 1`. |
| LegacyScraper.RunAfterPanic | rank-my-music.go:77 | After a panic the remaining albums change nothing. |
| LegacyScraper.RunEnds | rank-my-music.go:45-102 | A run that panicked or finished is the run over all albums. The array holds the albums reached, followed by the raw rest. |
| LegacyScraper.FetchAlbum | rank-my-music.go:55-101 | The store, trace, count and panic flag after the method are what Visit gives. |
| LegacyScraper.LoopEntry | rank-my-music.go:52-101 | Entry `i` is overwritten with its slugs and handled as Visit says. |
| LegacyScraper.MainLoop | rank-my-music.go:45-102 | The store, trace and panic flag are those of Run over the rewritten albums. The array holds the albums reached, rewritten, followed by the raw rest. |
| LegacyScraper.RankMyMusic | rank-my-music.go:43-102 | The same as MainLoop, for the two formatters. |
| LegacyProperties.FetchWrites | rank-my-music.go:80-96 | With a rating, FOUND_ALBUMS gains the name and "0", and the album's key gains both ratings and "0". Without one, the store is unchanged. |
| LegacyProperties.VisitPaced | rank-my-music.go:55-101 | One step requests the album's page and, unless the extractor panics, sleeps with the next draw. |
| LegacyProperties.RunSchedule | rank-my-music.go:45-102 | The trace requests each album reached, in order, each followed by a sleep using the draw of the same rank. |
| LegacyProperties.RunRequestsEveryAlbum | rank-my-music.go:45-102 | With no cache check, a run without panic requests every album of the input exactly once, in input order, with a sleep after each. |
| LegacyProperties.RunWaitsWithinWindow | rank-my-music.go:100 | Every wait lies in [60, 120] seconds. |
| LegacyProperties.VisitWrites | rank-my-music.go:80-96 | One step only adds to the store, and only at FOUND_ALBUMS and the album's key. |
| LegacyProperties.RunWrites | rank-my-music.go:45-102 | A run only adds to the store, and only at FOUND_ALBUMS and the keys of the albums reached. |
| LegacyProperties.RunWithoutRatingsWritesNothing | rank-my-music.go:93-96 | A run in which no page gives an average rating leaves the store as it was. |
| LegacyProperties.FoundRecordedGrows | rank-my-music.go:139-162 | The record of a found album survives any growth of the store. |
| LegacyProperties.VisitRecordsFound | rank-my-music.go:80-92 | A step whose page gives a rating records the album in FOUND_ALBUMS, with both ratings under its key. |
| LegacyProperties.RunRecordsFoundAlbums | rank-my-music.go:45-102 | After a run without panic, every album whose page gives a rating is recorded in that way. |
| NormalizerExamples.JessieWareSlug | rank_my_music.go:80 | "Jessie Ware" formats to `jessie-ware`. |
| NormalizerExamples.AcDcSlug | rank_my_music.go:223-230 | "AC/DC" formats to `ac_dc`. |
| NormalizerExamples.WhatsYourPleasureSlug | rank_my_music.go:80 | "Whats Your Pleasure" formats to `whats-your-pleasure`. |
| NormalizerExamples.BlueDeluxeEditionSlug | rank_my_music.go:206-220 | "Blue Deluxe Edition" formats to `blue`. |
| NormalizerExamples.BlueEpSlug | rank_my_music.go:208 | "Blue EP" formats to `blue`. |
| NormalizerExamples.RockAndRollSlug | rank_my_music.go:215-219 | "Rock &#38; Roll" formats to `rock-and-roll`. |
| NormalizerExamples.ThreeDotEightSlug | rank_my_music.go:227-228 | The artist "3.8" formats to `38`. |
| NormalizerExamples.ThirtyEightSlug | rank_my_music.go:227 | The artist "38" formats to `and`. |
| NormalizerExamples.ArtistFormattingNotIdempotent | rank_my_music.go:223-230 | Formatting an artist name twice can change the slug. |

## Left out

- HTTP: `http.Get`, `ioutil.ReadAll` and `Body.Close` are the parameter `fetch`. Transport errors, and the nil-response dereference that follows one, are not modelled.
- Redis: the server, client creation (`createRedisClient`) and errors returned by `SAdd` or `SMembers` are not modelled. Every SADD succeeds, since the Go code only logs the error and carries on.
- Redis.Store.SMembers: returns the set, not a list. The order Redis lists members in is abstracted: `Lookup` takes the list as any repetition-free listing (`Lists`).
- The gin web server and its routing are not modelled, apart from the reply rule of `/rating/:albumName`.
- The goroutine that runs the scraper beside the server is not modelled; the scraper is modelled alone.
- `time.Sleep`, `rand.Seed` and `rand.Intn` are not modelled. A sleep is a `Sleep` event in the trace, and the draws are the parameter `intn`.
- Logging and printing are not modelled.
- Unicode: `ToLower` and `TrimSpace` are modelled on ASCII only. Go strings are byte sequences; the model treats them as sequences of characters, which agrees on ASCII text.
- `ImportLibrary`'s file reading and `main`'s wiring are not modelled. The startup snapshot of MISSING_ALBUMS appears as a lemma requirement (`Elements(missing) == Members(db, "MISSING_ALBUMS")`).
- import-library.go is not part of this model: it reads a fixed path and only prints.
- Scraper.ScrapeLoop and LegacyScraper.MainLoop take the rewriting of an album as a parameter; ScrapeDataFromRym and RankMyMusic pass the two formatters.
- Scraper.Run and LegacyScraper.Run are stated over the page reader `read`; the entry methods instantiate it with `GetRatings` of the fetched page.
- The formatters and the extractor of rank-my-music.go are modelled once, by Normalizer and Extractor, because the code is identical.
- Normalizer.FormatAlbumName: idempotence does not hold and is not claimed. ArtistFormattingNotIdempotent shows a counterexample for the artist formatter.
