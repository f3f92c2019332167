# alyo reconciliation core in Dafny

alyo keeps a catalogue of anime episodes that YouTube channels publish as playlists. A
periodic worker walks the tracked channels. For each channel it:

- stores the channel's name and URL (the profile-picture path it computes is never written);
- lists the channel's playlists, page by page;
- keeps only the playlists whose titles look like anime series;
- derives each playlist's anime title, language and per-video episode number from free text;
- finds or creates the anime by title, stores the playlist and its episodes;
- updates the anime's view totals, last-update time and (first write wins) its thumbnail.

A web application serves the catalogue with paginated, sortable listings and a detail page.

The model covers these parts:

- `text.dfy` (module `Text`): the Go library behaviour the core relies on:
  - ASCII lower-casing, substring search and `strings.TrimSpace`;
  - `strconv.Atoi`, and `strconv.ParseInt(s, 10, 64)` with its error ignored;
  - decimal rendering.
- `heuristics.dfy` (module `Heuristics`): the four title heuristics of the worker:
  - relevance and language keywords;
  - the episode-number regular expression, proved to pick RE2's leftmost, greedy match;
  - the decoration-stripping regular expression of the anime title, proved to remove RE2's
    leftmost-first, non-overlapping matches, with the catalogue's worked titles.
- `feed.dfy` (module `Feed`): the YouTube client:
  - HTTP replies are reduced to a status and a decoded body;
  - cursor pagination;
  - statistics lookups in chunks of 50 ids;
  - the channel's profile picture.
- `database.dfy` (module `Database`): the PostgreSQL store:
  - its tables as maps, its upserts and updates as functions on them;
  - a `Store` class whose methods update those tables in place;
  - the `GetAnimes` query builder.
  - Each statement can be refused by the database. `Env.refuses` decides which ones are,
    so every error branch of the worker is modelled.
- `worker.dfy` (module `Worker`): `findOrCreateAnime` and `runWorker`:
  - the imperative loops are methods proved against ghost functions that state what one
    playlist, one channel and one run do to the tables;
  - lemmas relate those functions to the anime statistics the worker promises.
- `webapp.dfy` (module `WebApp`): the list API's sort, page, offset and page count, the home
  page's fixed parameters, and the detail route's id parsing.
- `wrappers.dfy` (module `Wrappers`): `Option`, `Result` and `Outcome`.

## Model

| member | source | states |
|---|---|---|
| Text.ToLower | cmd/worker/main.go:283 | lower-casing keeps the length and maps every character through ASCII `A`-`Z` to `a`-`z` |
| Text.Contains | cmd/worker/main.go:286 | true exactly when the pattern occurs at some position of the string |
| Text.ContainsAny | cmd/worker/main.go:285-289 | true exactly when some keyword of the list occurs in the string |
| Text.TrimSpace | cmd/worker/main.go:302 | the result is a contiguous slice of the input, everything cut on either side is Unicode white space, and the result neither starts nor ends with white space |
| Text.SkipSpace | cmd/worker/main.go:302 | the forward scan of `strings.TrimSpace` stops at the first character that is not white space, having passed only white space, or at the end |
| Text.SkipSpaceBack | cmd/worker/main.go:302 | the backward scan stops, never before its lower bound, right after the last character that is not white space, having passed only white space |
| Text.TrimSpaceNoop | cmd/worker/main.go:302 | a string without white space at either end is left unchanged |
| Text.DecimalString | internal/core/database/postgres.go:102 | the rendering is a non-empty digit string whose value is the number, with no leading zero |
| Text.Atoi | cmd/webapp/main.go:241 | succeeds exactly on an optional sign followed by digits whose value lies in the 64-bit range, and then returns that value |
| Text.ParseSigned | cmd/worker/main.go:164 | a value exactly for a non-empty string that is an optional sign followed by at least one digit and nothing else, and then the digits' value, negated after `-` |
| Text.LeadingDigits | cmd/worker/main.go:164 | the length of the run of digits at the start of a string: everything before it is a digit, the character after it is not, and it covers the string exactly when the string is all digits |
| Text.ScanUintSpec | cmd/worker/main.go:164 | the digit-by-digit scan of `strconv.ParseUint` reports a range error exactly when the leading run of digits exceeds 2^64-1, otherwise a syntax error when a non-digit follows, otherwise the value of the whole string |
| Text.ParseUint64 | cmd/worker/main.go:164 | a range error exactly when the leading run of digits exceeds 2^64-1; a value exactly for a non-empty, all-digit string of at most 2^64-1, and then its value; a syntax error for the empty string or a non-digit that comes before any overflow |
| Text.ParseInt64OrZero | cmd/worker/main.go:164 | always in the 64-bit range; agrees with Atoi where Atoi succeeds; 0 on a syntax error (empty, no digits, or a non-digit before any overflow); the sign's 64-bit bound when the digits before the first non-digit already exceed 2^64-1, and when a well-formed value lies outside the 64-bit range |
| Text.OverflowThenText | cmd/worker/main.go:164 | digits worth more than 2^64-1 followed by any text give the largest 64-bit value, or the smallest after `-`, even when that text makes the string malformed |
| Text.AtoiFormatRoundTrip | cmd/webapp/main.go:241-244 | every 64-bit non-negative number written in decimal, bare or with `+` or `-`, parses back to itself (or its negation) |
| Text.TrimTrailing | cmd/worker/main.go:302 | trimming a text with non-space ends followed only by white space gives that text |
| Text.DecimalStringUnique | internal/core/database/postgres.go:102 | a digit string without a leading zero is the decimal rendering of its value |
| Heuristics.IsRelevantPlaylist | cmd/worker/main.go:282-297 | a playlist is relevant exactly when no excluded keyword occurs in its lower-cased title |
| Heuristics.ExtractLanguage | cmd/worker/main.go:317-326 | the language is "id" or "en", and "id" exactly when an Indonesian keyword occurs in the lower-cased title |
| Heuristics.ExtractEpisodeNumber | cmd/worker/main.go:305-315 | a found episode number has at most three digits, so it is at most 999 |
| Heuristics.MarkerGroupSpec | cmd/worker/main.go:306 | after one marker at a position, the greedy scan finds the only digit group that can follow it, or proves that none can |
| Heuristics.GroupAtSpec | cmd/worker/main.go:306 | at a position, the alternatives tried in order find the match of the regular expression starting there with the longest digit group, or prove that none starts there |
| Heuristics.FindGroupSpec | cmd/worker/main.go:306-307 | scanning from a position finds the leftmost match and, among matches starting there, the one with the longest digit group; no match exists when the scan fails |
| Heuristics.ExtractEpisodeNumberSpec | cmd/worker/main.go:305-315 | no number exactly when the title has no match; otherwise the number is the value of the capture group of RE2's leftmost greedy match |
| Heuristics.CloseAt | cmd/worker/main.go:300 | the lazy `.*?` before a closing bracket ends at the first such bracket with no newline before it, the shortest match; there is none exactly when no such bracket follows |
| Heuristics.DecorationAt | cmd/worker/main.go:300 | a match at a position is at least two characters long and lies within the string |
| Heuristics.DecorationAtSpec | cmd/worker/main.go:300 | nothing is found at a position exactly when no alternative of the expression matches there; otherwise the length is RE2's preferred match: the first alternative that matches, and for the lazy bracket alternatives the shortest |
| Heuristics.PreferredMatchUnique | cmd/worker/main.go:300 | the preferred match at a position is unique |
| Heuristics.LeftmostCutsUnique | cmd/worker/main.go:300-301 | a string has only one list of leftmost-first, non-overlapping matches |
| Heuristics.StripDecorations | cmd/worker/main.go:300-301 | removal never lengthens the title, and a title in which no decoration matches anywhere is kept as it is |
| Heuristics.RemovedMatches | cmd/worker/main.go:300-301 | the stripped text is exactly the text between the leftmost-first, non-overlapping matches, each the preferred match where it starts, with no match after the last one |
| Heuristics.StripPlainRun | cmd/worker/main.go:300-301 | a stretch where no decoration can start is kept unchanged |
| Heuristics.ExtractAnimeTitle | cmd/worker/main.go:299-303 | the title is no longer than the playlist title and has no white space at either end; an undecorated playlist title is only trimmed |
| Heuristics.ExtractAnimeTitleSpec | cmd/worker/main.go:299-303 | the catalogue title is the text outside the leftmost-first decoration matches, trimmed |
| Heuristics.SeasonSuffixTitle | cmd/worker/main.go:299-303 | a plain title followed by " Season " and a digit is catalogued under the title |
| Heuristics.TagSuffixTitle | cmd/worker/main.go:299-303 | a plain title followed by a bracketed tag is catalogued under the title |
| Heuristics.TagSeasonTitle | cmd/worker/main.go:299-303 | a plain title, a bracketed tag and " Season " with a digit is catalogued under the title |
| Heuristics.AttackOnTitanTitle | cmd/worker/main.go:299-303 | "Attack on Titan [Sub Indo] Season 2" is catalogued as "Attack on Titan" |
| Heuristics.DemonSlayerTitles | cmd/worker/main.go:299-303 | "Demon Slayer Season 2" and "Demon Slayer [Sub Indo]" are both catalogued as "Demon Slayer" |
| Feed.Receive | internal/youtube/client.go:111-124 | a reply is accepted exactly when it is a 200 with a decodable body; a transport error and any other status are failures that carry the cause |
| Feed.Paginate | internal/youtube/client.go:103-135 | the paging loop returns exactly the specification `Collect` of the pages served from the empty token on |
| Feed.GetPlaylistsForChannel | internal/youtube/client.go:103-135 | the channel's playlists are the pages collected from the empty token on |
| Feed.GetVideosForPlaylist | internal/youtube/client.go:138-170 | the playlist's videos are the pages collected from the empty token on |
| Feed.CollectFollowsChain | internal/youtube/client.go:103-135 | along a chain of pages whose last token is empty, paging succeeds with all items of all pages in order |
| Feed.CollectSuccessHasChain | internal/youtube/client.go:103-135 | a successful paging run was served by such a chain, and its result is that chain's items in order |
| Feed.CollectFailsAtFirstError | internal/youtube/client.go:111-124 | when a page request fails after some good pages, the whole listing fails with that error and the earlier items are dropped |
| Feed.ChunksSpec | internal/youtube/client.go:180-188 | the chunks concatenate back to the id list, there are ceil(n/50) of them, and chunk k is ids[50k .. min(50k+50, n)] with 1 to 50 ids |
| Feed.GetVideoDetails | internal/youtube/client.go:172-211 | the details are one statistics request per chunk, concatenated in order, failing at the first failing chunk; an empty id list gives an empty result without a request |
| Feed.GetChannelProfilePicture | internal/youtube/client.go:213-236 | a failed request is a failure; otherwise the first item's default thumbnail, or "" when the channel list is empty |
| Database.EmptyTables | internal/core/database/postgres.go:24-35 | the empty store satisfies the table invariants (rows keyed by their ids, title index and anime table in agreement) |
| Database.ChannelUpserted | internal/core/database/postgres.go:53-57 | the channel upsert writes name and URL under the id, keeps an existing profile picture column (a new row gets NULL), touches no other row and keeps the invariants |
| Database.AnimeByTitle | internal/core/database/postgres.go:60-68 | the lookup finds a row exactly when some anime has that title, and then returns that stored row |
| Database.AnimeUpserted | internal/core/database/postgres.go:71-76 | an existing title keeps its id, with synopsis, thumbnail and release year overwritten and the statistics kept; a new title gets an id no row holds; no other anime row changes |
| Database.StoredViewTotal | cmd/worker/main.go:203-206 | reading the view data of a stored anime returns its total; an unknown id has no rows |
| Database.ViewDataWritten | cmd/worker/main.go:210 | the view-data update sets total and weekly increase of that anime only; an unknown id changes nothing |
| Database.LastUpdatedWritten | internal/core/database/postgres.go:133-137 | the update sets last_updated of that anime only; an unknown id changes nothing |
| Database.ThumbnailFilled | internal/core/database/postgres.go:154-156 | the guarded update fills the thumbnail only when it is NULL; otherwise, or for an unknown id, nothing changes |
| Database.PlaylistUpserted | internal/core/database/postgres.go:79-83 | the playlist upsert stores the row under its id and touches nothing else |
| Database.EpisodeUpserted | internal/core/database/postgres.go:86-90 | the episode upsert stores the row under its video id with the stored view count kept (0 for a new row), and touches nothing else |
| Database.ChannelUpsertIdempotent | internal/core/database/postgres.go:53-57 | upserting the same channel twice equals upserting it once |
| Database.PlaylistUpsertIdempotent | internal/core/database/postgres.go:79-83 | upserting the same playlist twice equals upserting it once |
| Database.EpisodeUpsertIdempotent | internal/core/database/postgres.go:86-90 | upserting the same episode twice equals upserting it once |
| Database.UpsertAnimeIdempotent | internal/core/database/postgres.go:71-76 | a repeated anime upsert returns the same id and changes nothing more |
| Database.FindAfterUpsert | internal/core/database/postgres.go:60-76 | after an anime upsert, looking its title up finds the returned id with the written synopsis |
| Database.ThumbnailFirstWriteWins | internal/core/database/postgres.go:140-157 | a thumbnail once set is never replaced by a later candidate |
| Database.ViewDataRoundTrip | cmd/worker/main.go:203-210 | the total written by the view-data update is the total read back next time |
| Database.UpdateAnimeThumbnailUrlStep | internal/core/database/postgres.go:140-157 | an empty URL or one that is not a request URI is skipped without error; the call fails exactly when the database refuses the update; a set thumbnail is never changed |
| Database.Store.constructor | internal/core/database/postgres.go:43-51 | a new store starts with empty tables that satisfy the invariants |
| Database.Store.UpsertChannel | internal/core/database/postgres.go:53-57 | the store's new tables and the error are those of the channel-upsert step |
| Database.Store.FindAnimeByTitle | internal/core/database/postgres.go:60-68 | the answer is that of the lookup step on the current tables |
| Database.Store.UpsertAnime | internal/core/database/postgres.go:71-76 | the store's new tables and the returned id or error are those of the anime-upsert step |
| Database.Store.UpsertPlaylist | internal/core/database/postgres.go:79-83 | the store's new tables and the error are those of the playlist-upsert step |
| Database.Store.UpsertEpisode | internal/core/database/postgres.go:86-90 | the store's new tables and the error are those of the episode-upsert step |
| Database.Store.GetAnimeViewData | cmd/worker/main.go:203-206 | the answer is the stored total, or an error when refused or unknown |
| Database.Store.UpdateAnimeViewData | cmd/worker/main.go:210-213 | the store's new tables and the error are those of the view-data update step |
| Database.Store.UpdateAnimeLastUpdated | internal/core/database/postgres.go:133-137 | the store's new tables and the error are those of the last-updated step |
| Database.Store.UpdateAnimeThumbnailUrl | internal/core/database/postgres.go:140-157 | the store's new tables and the error are those of the thumbnail step |
| Database.OrderByFallsBack | internal/core/database/postgres.go:115-125 | every sort key other than name_asc, name_desc and updated_asc orders like updated_desc ("views_desc" and "" included), and those three differ from it |
| Database.GetAnimesQuery | internal/core/database/postgres.go:93-127 | the query always filters on a thumbnail; a language filter for "id"/"en" comes first as $1; a non-empty search comes next as an ILIKE on %search%, numbered after it; the conditions are joined with AND and the sort clause is appended |
| Worker.FindOrCreateAnimeStep | cmd/worker/main.go:266-280 | a refused lookup fails and writes nothing; an existing title returns its id and writes nothing; otherwise a new anime with the synopsis and empty statistics is inserted under a fresh id; on success the title maps to the returned id |
| Worker.FindOrCreateAnime | cmd/worker/main.go:266-280 | the method leaves the store and returns the result of the find-or-create step |
| Worker.CollectVideoIds | cmd/worker/main.go:151-154 | the id list has one entry per video, in order |
| Worker.ViewCountsKeys | cmd/worker/main.go:162-166 | the view-count map holds exactly the ids that have statistics |
| Worker.ViewCountsLast | cmd/worker/main.go:162-166 | the count stored under an id is the parsed count of the last entry with that id |
| Worker.ViewCountsSpec | cmd/worker/main.go:162-166 | the view-count map holds exactly the ids that have statistics, each with the parsed count of its last entry |
| Worker.BuildViewCounts | cmd/worker/main.go:162-166 | the loop builds the view-count map of the statistics |
| Worker.SumViewsAppend | cmd/worker/main.go:191 | the running total over a concatenation of video lists is the sum of the totals |
| Worker.SumViews | cmd/worker/main.go:184-191 | videos without statistics add nothing to the total, and with non-negative counts the total is non-negative |
| Worker.LatestPublished | cmd/worker/main.go:193-195 | defined exactly for a non-empty list, and then the latest publication time of its videos |
| Worker.EarliestOf | cmd/worker/main.go:197-200 | defined exactly for a non-empty list, and then the earliest publication time with the thumbnail of the first video published at that time |
| Worker.EpisodesWritten | cmd/worker/main.go:173-189 | the episode loop changes only the episodes table, only under the videos' ids, and keeps the invariants |
| Worker.EpisodesWrittenViews | cmd/worker/main.go:173-189 | the episode loop never changes a stored view count; a row it creates counts 0 views |
| Worker.EpisodesWrittenRow | cmd/worker/main.go:173-189 | when the last upsert for a video's id is accepted, that id holds the video's row (title, extracted episode number, publish time, thumbnail) with the stored view count |
| Worker.EpisodeLoopStep | cmd/worker/main.go:173-201 | one more video adds one episode upsert, its view count to the total, and updates latest and earliest as the two comparisons do |
| Worker.WriteEpisode | cmd/worker/main.go:174-191 | one iteration upserts the video's episode row and yields its looked-up view count |
| Worker.WriteEpisodes | cmd/worker/main.go:168-201 | the loop leaves the tables of the episode loop and returns the view total, the latest time and the earliest time with its thumbnail |
| Worker.PreviousTotal | cmd/worker/main.go:203-206 | the subtracted total is the stored one, or 0 when the read fails |
| Worker.ViewTotalsStage | cmd/worker/main.go:203-213 | unless refused, the anime's total becomes the playlist's sum and its weekly increase the sum minus the previous total |
| Worker.LastUpdatedStage | cmd/worker/main.go:215-220 | last_updated becomes the latest time when there is one and the update is not refused |
| Worker.ThumbnailStage | cmd/worker/main.go:221-226 | the earliest video's thumbnail is written only into an empty thumbnail, and only when it is a non-empty request URI and not refused |
| Worker.AnimeStatsWritten | cmd/worker/main.go:203-226 | the three statistics updates change only that anime's row, and set totals, last update and thumbnail as the stages say |
| Worker.WriteAnimeStats | cmd/worker/main.go:203-226 | the method leaves the tables of the statistics stages |
| Worker.ReconcileVideos | cmd/worker/main.go:142-226 | when the videos or statistics cannot be fetched, or the playlist is empty, the tables are unchanged |
| Worker.ProcessVideos | cmd/worker/main.go:142-226 | the method leaves the tables of the video stage |
| Worker.PlaylistStored | cmd/worker/main.go:120-140 | on success the title maps to the returned anime, which is the existing row or a fresh one with the playlist's description, and the playlist row is stored under that anime |
| Worker.ReconcilePlaylist | cmd/worker/main.go:114-226 | an irrelevant playlist leaves the tables unchanged; every result keeps the invariants |
| Worker.ProcessPlaylist | cmd/worker/main.go:114-226 | the method leaves the tables of one playlist's reconciliation |
| Worker.PlaylistsPrefixStep | cmd/worker/main.go:114-229 | the playlist loop over one more playlist reconciles that playlist on the previous result |
| Worker.ProcessPlaylists | cmd/worker/main.go:114-229 | the loop leaves the tables of the playlists reconciled in listed order |
| Worker.ProfilePicturePath | cmd/worker/main.go:85-88 | the path is non-empty exactly when the provider reports a picture URL, and is then `/img/channels/<id>.jpg` |
| Worker.ChannelRow | cmd/worker/main.go:100-101 | the channel passed to the upsert carries the configured id and name, the channel URL and the picture path |
| Worker.ChannelPictureIgnored | internal/core/database/postgres.go:53-57 | whatever picture the provider reports, storing the channel gives the same outcome and tables, and profile_picture_url keeps its old value (NULL for a new channel) |
| Worker.ReconcileChannel | cmd/worker/main.go:77-229 | one channel: a refused channel upsert skips it and leaves the tables unchanged; every result keeps the invariants |
| Worker.RunWorkerSpec | cmd/worker/main.go:76-231 | the channels one after the other, keeping the invariants; a run in which every channel upsert is refused changes nothing |
| Worker.ProcessChannel | cmd/worker/main.go:77-229 | the method leaves the tables of one channel's reconciliation |
| Worker.RunWorker | cmd/worker/main.go:76-231 | the run leaves the tables of the channels reconciled in order |
| Worker.ReconcileVideosRetains | cmd/worker/main.go:168-226 | the video stage deletes no row, remaps no title and replaces no set thumbnail |
| Worker.ReconcilePlaylistRetains | cmd/worker/main.go:114-226 | one playlist deletes no row, remaps no title and replaces no set thumbnail |
| Worker.ReconcilePlaylistsRetains | cmd/worker/main.go:114-229 | a channel's playlist loop deletes no row, remaps no title and replaces no set thumbnail |
| Worker.ReconcileChannelRetains | cmd/worker/main.go:77-229 | a channel deletes no row, remaps no title and replaces no set thumbnail |
| Worker.RunWorkerRetains | cmd/worker/main.go:76-231 | a whole run deletes no row, remaps no title and replaces no set thumbnail |
| Worker.PlaylistWithoutVideos | cmd/worker/main.go:142-149 | a playlist whose videos or statistics cannot be fetched, or which is empty, writes no episode and no anime statistics |
| Worker.PlaylistRowWithoutVideos | cmd/worker/main.go:120-149 | even then, with the database accepting every write, its anime exists and its row is stored with the extracted language |
| Worker.StatsRow | cmd/worker/main.go:203-226 | with only episode writes and the view read refused, the statistics row gets the sum, the latest time and (if empty) the earliest thumbnail |
| Worker.VideoStageStats | cmd/worker/main.go:142-226 | the same holds for a playlist's whole video stage with the provider's videos and view counts |
| Worker.FindOrCreateSucceeds | cmd/worker/main.go:266-280 | when the lookup and the insert are accepted, find-or-create succeeds |
| Worker.PlaylistStoredSucceeds | cmd/worker/main.go:120-140 | when find-or-create and the playlist upsert succeed, the anime stage yields that anime id |
| Worker.AnimeStageRow | cmd/worker/main.go:120-140 | with only episode writes and the view read refused, every relevant playlist reaches the video stage |
| Worker.PlaylistTotals | cmd/worker/main.go:203-213 | after a playlist, its anime's total is the playlist's view sum and its weekly increase that sum minus the total stored before (0 for a new anime) |
| Worker.StatsTotals | cmd/worker/main.go:203-213 | from the statistics written, the total is the playlist's sum and the weekly increase is that sum minus the earlier anime's total, or minus 0 for an anime created by this playlist |
| Worker.PlaylistViewTotals | cmd/worker/main.go:120-226 | a relevant playlist with videos resolves the title to the existing anime (or a new one) and writes the statistics of its videos into it |
| Worker.PlaylistsOfOneAnimeOverwrite | cmd/worker/main.go:203-213 | two playlists with the same anime title leave the second's sum as the total and the difference of the two sums as the weekly increase |
| Worker.SecondPassWeeklyZero | cmd/worker/main.go:203-213 | reconciling the same playlist again with unchanged data keeps the total and makes the weekly increase 0 |
| WebApp.NormalizeSort | cmd/webapp/main.go:238-240 | an empty sort becomes updated_desc and any other sort is kept |
| WebApp.NormalizePage | cmd/webapp/main.go:241-244 | the page is at least 1; it is the parsed value whenever that parses and is at least 1, and 1 otherwise |
| WebApp.TotalPages | cmd/webapp/main.go:254 | the least number of 24-row pages that hold all rows; 0 exactly when there are no rows |
| WebApp.OffsetAsWritten | cmd/webapp/main.go:257 | the offset product computed in 64-bit two's complement, as the code computes it |
| WebApp.Offset | cmd/webapp/main.go:257 | a non-negative multiple of 24 that fits in 64 bits and equals (page - 1) * 24 for every page up to the largest safe one |
| WebApp.OffsetAgreesUpToMaxPage | cmd/webapp/main.go:257 | up to the largest safe page the code's offset is the intended one |
| WebApp.OffsetOverflow | cmd/webapp/main.go:241-257 | a decimal page one past the largest safe page is accepted and gives a negative offset |
| WebApp.ListAnimes | cmd/webapp/main.go:230-287 | the list API queries the normalised search, sort and page, 24 rows at the offset computed in 64-bit arithmetic, reports that page and the page count; up to the largest safe page the offset is the non-negative (page - 1) * 24 |
| WebApp.ListAnimesNegativeOffset | cmd/webapp/main.go:241-257 | the list API asked for the page one past the largest safe page sends a negative offset to the store |
| WebApp.Home | cmd/webapp/main.go:99-149 | the home page asks for 24 rows with no search at the offset of the default page under the default sort, reports page 1 of the page count and links the page after it |
| WebApp.HomeIsFirstListPage | cmd/webapp/main.go:99-149 | the home page issues the query and reports the page numbers of the list API asked with no parameters, and links page 2 |
| WebApp.ConsecutivePagesTile | cmd/webapp/main.go:241-263 | consecutive pages ask for adjacent, non-overlapping windows of 24 rows |
| WebApp.PageOfDecimal | cmd/webapp/main.go:241-244 | a positive page written in decimal is that page |
| WebApp.ParseDetailRoute | cmd/webapp/main.go:152-158 | the detail route is not found exactly when the id is not a 64-bit integer, and otherwise looks that id up |
| WebApp.DetailRouteRoundTrip | cmd/webapp/main.go:152-158 | every anime id the store hands out, written in decimal, routes to itself |

## Left out

- Where the system's documented behaviour and its code differ, the model follows the code:
  - The weekly increase is documented per anime, as the anime's total now minus its total at the previous pass. The code writes one playlist's sum over the anime's total, so two playlists of one anime overwrite each other (`Worker.PlaylistsOfOneAnimeOverwrite`).
  - `views_desc` is documented as a sort key. `GetAnimes` has no such case, so it orders like the default (`Database.OrderByFallsBack`).
  - Unavailable statistics are documented as zero views. The worker instead skips the rest of the playlist when `GetVideoDetails` fails (cmd/worker/main.go:156-160).
- `GetAnimeViewData` and `UpdateAnimeViewData` are not part of the `Store` interface in postgres.go, and their implementation is not part of this model. They are specified from their use: a read returns the stored total or an error, the worker then subtracts 0, and the update writes total and weekly increase.
- Database errors are a deterministic oracle `Env.refuses` over statements rather than real failures; the web handlers' store calls (counts, rows, top weekly) are parameters.
- `url.ParseRequestURI` is the oracle `Env.isRequestUri`.
- The anime id sequence advancing on a conflicting insert is not modelled: ids are only known to be fresh.
- HTTP, JSON decoding, the 10-second timeout, templates, the image download and the file system are not modelled.
- `Worker.ProfilePicturePath`: a failed image download, which resets the path to "" (cmd/worker/main.go:90-94), is not modelled. The path never reaches the tables anyway: `UpsertChannel` (internal/core/database/postgres.go:53-57) writes only name and URL and never writes `profile_picture_url` (`Worker.ChannelPictureIgnored`).
- The cron schedule, the 2-second sleep and the worker's logging are not modelled; they do not change the tables.
- The channel order is a sequence given as input. Go iterates the `targetChannels` map in random order.
- Go 1.22 per-iteration loop variables are assumed for `&v.Snippet.PublishedAt` and `&thumbURL` (cmd/worker/main.go:194-199).
- Anime `ChannelID` and `Languages` (internal/core/models/models.go:23-24) are not modelled; the code never writes them.
- `GetAllAnimes`, `GetAnimeWithEpisodes`, `CountAnimes`, `GetTopWeeklyAnimes`, `GetAllChannelsMap`, the migrator and the channels API are not modelled. The core does not call them.
- `Database.GetAnimesQuery`: the LIMIT/OFFSET part of the listing query is not modelled. postgres.go:93-127 builds no such clause from `GetAnimesParams`.
- `Feed.Paginate`, `Worker.RunWorker`: termination rests on a ghost bound `PagesEnd`/`FeedsEnd` on the number of pages the provider serves. A provider that returns tokens forever is not modelled.
- `Worker.SumViews`: view totals are unbounded integers; the int64 overflow of `currentTotalViews` and of `weeklyIncrease` is not modelled.
- `WebApp.TotalPages`: the float `math.Ceil` is modelled as an integer ceiling, which agrees with it for every count below 2^53.
- `Text.ToLower`: lower-casing is ASCII only. The Go code's `strings.ToLower` and the `(?i)` flag also fold non-ASCII letters (for example the long s `ſ` matching `s`); titles relying on that are not modelled.
- `Heuristics.ExtractEpisodeNumber`: its own contract states only the bound; the full RE2 behaviour is stated by `Heuristics.ExtractEpisodeNumberSpec`.
- `Heuristics.ExtractAnimeTitle`, `Heuristics.StripDecorations`: their own contracts state the bound, the trimming, and that an undecorated title is kept. Which matches are removed is stated by `Heuristics.RemovedMatches` and `Heuristics.ExtractAnimeTitleSpec`.

## Findings

| source | as written | input that shows it | evidently intended | confidence | as-written member | corrected member |
|---|---|---|---|---|---|---|
| cmd/webapp/main.go:257 | `offset := (page - 1) * pageSize` wraps around in Go's 64-bit int for a large page that `strconv.Atoi` accepts | page=384307168202282327 gives offset -9223372036854775792 | a non-negative offset of the requested page | not executed | WebApp.ListAnimesNegativeOffset | WebApp.Offset |
