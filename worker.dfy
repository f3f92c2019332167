/** The reconciliation worker (cmd/worker/main.go): for each tracked channel, store the
    channel, list its playlists, and fold every relevant playlist into the catalogue — find or
    create its anime by canonical title, store the playlist, store its videos as episodes and
    write the anime's view totals, last-updated time and first thumbnail. Each method is
    proved against a ghost function of the tables before it, and the properties of the run
    are lemmas about those functions. */
module Worker {
  import opened Wrappers
  import opened Text
  import opened Heuristics
  import opened Feed
  import opened Database

  /** A tracked channel: display name and channel id. */
  datatype Source = Source(name: string, id: string)

  const ChannelUrlPrefix: string := "https://www.youtube.com/channel/"

  /** Every listing the provider serves ends within `bound` pages. */
  ghost predicate FeedsEnd(api: Api, bound: nat) {
    (forall id :: PagesEnd(api.playlistsPage, id, "", bound))
    && (forall id :: PagesEnd(api.videosPage, id, "", bound))
  }

  /** `r` keeps every row of `t`, every title's anime id, and every thumbnail already set:
      the worker never deletes and never replaces a thumbnail. */
  ghost predicate Retains(t: Tables, r: Tables) {
    t.channels.Keys <= r.channels.Keys
    && t.playlists.Keys <= r.playlists.Keys
    && t.episodes.Keys <= r.episodes.Keys
    && t.animes.Keys <= r.animes.Keys
    && (forall title :: title in t.animeIds ==> title in r.animeIds && r.animeIds[title] == t.animeIds[title])
    && (forall id :: id in t.animes && t.animes[id].thumbnailUrl.Some? ==>
          id in r.animes && r.animes[id].thumbnailUrl == t.animes[id].thumbnailUrl)
  }

  lemma RetainsTransitive(t0: Tables, t1: Tables, t2: Tables)
    requires Retains(t0, t1) && Retains(t1, t2)
    ensures Retains(t0, t2)
  {
  }

  // ================================================================ findOrCreateAnime

  /** The anime findOrCreateAnime inserts: title and synopsis, every other column zero. */
  function NewAnime(title: string, synopsis: string): Anime {
    Anime(0, title, Some(synopsis), None, None, None, 0, 0)
  }

  /** findOrCreateAnime: a failed lookup is returned and nothing is written; an existing title
      yields its id and nothing is written; otherwise the anime is inserted with the synopsis
      and the insert's id or error is returned. */
  function FindOrCreateAnimeStep(env: Env, t: Tables, title: string, synopsis: string): (r: Step<Result<int, DbError>>)
    requires Consistent(t)
    ensures Consistent(r.tables) && Retains(t, r.tables)
    ensures r.result.Failure? ==> r.tables == t
    ensures env.refuses(SelectAnimeByTitle(title)) ==> r == Step(t, Failure(Refused))
    ensures !env.refuses(SelectAnimeByTitle(title)) && AnimeByTitle(t, title).Some? ==>
              r == Step(t, Success(AnimeByTitle(t, title).value.id))
    ensures r.result.Success? ==>
              AnimeByTitle(r.tables, title).Some? && AnimeByTitle(r.tables, title).value.id == r.result.value
    ensures r.tables != t ==>
              AnimeByTitle(t, title).None? && r.result.Success? && r.result.value !in t.animes
              && r.tables.animes.Keys == t.animes.Keys + {r.result.value}
              && r.tables.animes[r.result.value] == Anime(r.result.value, title, Some(synopsis), None, None, None, 0, 0)
    ensures forall id :: id in t.animes ==> id in r.tables.animes && r.tables.animes[id] == t.animes[id]
    ensures r.tables.channels == t.channels && r.tables.playlists == t.playlists && r.tables.episodes == t.episodes
  {
    match FindAnimeByTitleStep(env, t, title)
    case Failure(e) => Step(t, Failure(e))
    case Success(existing) =>
      if existing.Some? then Step(t, Success(existing.value.id))
      else
        var r := UpsertAnimeStep(env, t, NewAnime(title, synopsis));
        FindAfterUpsert(t, title, Some(synopsis), None, None);
        r
  }

  method FindOrCreateAnime(store: Store, title: string, synopsis: string) returns (r: Result<int, DbError>)
    requires store.Valid()
    modifies store
    ensures store.Valid()
    ensures Step(store.State(), r) == FindOrCreateAnimeStep(store.env, old(store.State()), title, synopsis)
  {
    var existing := store.FindAnimeByTitle(title);
    if existing.Failure? {
      return Failure(existing.error);
    }
    if existing.value.Some? {
      return Success(existing.value.value.id);
    }
    r := store.UpsertAnime(NewAnime(title, synopsis));
  }

  // ================================================================ folds over one playlist's videos

  /** The earliest publish time seen so far and the High thumbnail of the video that set it. */
  datatype Earliest = Earliest(publishedAt: int, thumbnailUrl: string)

  /** The videoIDs slice: the ids of the videos, in order. */
  method CollectVideoIds(videos: seq<VideoItem>) returns (ids: seq<string>)
    ensures |ids| == |videos|
    ensures forall i :: 0 <= i < |videos| ==> ids[i] == videos[i].videoId
  {
    ids := [];
    var i := 0;
    while i < |videos|
      invariant i <= |videos| && |ids| == i
      invariant forall j :: 0 <= j < i ==> ids[j] == videos[j].videoId
    {
      ids := ids + [videos[i].videoId];
      i := i + 1;
    }
  }

  /** The viewCounts map: each detail's parsed view count under its video id, later entries
      winning; a count that does not parse is stored as 0. */
  function ViewCounts(details: seq<VideoDetailItem>): map<string, int> {
    if details == [] then map[]
    else
      var last := details[|details| - 1];
      ViewCounts(details[..|details| - 1])[last.id := ParseInt64OrZero(last.viewCount)]
  }

  /** The map holds exactly the ids that have a detail entry, each with the view count of the
      last entry for that id. */
  lemma ViewCountsSpec(details: seq<VideoDetailItem>, k: string)
    ensures k in ViewCounts(details) <==> exists i :: 0 <= i < |details| && details[i].id == k
    ensures forall i :: 0 <= i < |details| && details[i].id == k
                        && (forall j :: i < j < |details| ==> details[j].id != k) ==>
              ViewCounts(details)[k] == ParseInt64OrZero(details[i].viewCount)
  {
    ViewCountsKeys(details, k);
    forall i | 0 <= i < |details| && details[i].id == k && (forall j :: i < j < |details| ==> details[j].id != k)
      ensures ViewCounts(details)[k] == ParseInt64OrZero(details[i].viewCount)
    {
      ViewCountsLast(details, k, i);
    }
  }

  /** The map's keys are the ids that have a detail entry. */
  lemma {:induction false} ViewCountsKeys(details: seq<VideoDetailItem>, k: string)
    ensures k in ViewCounts(details) <==> exists i :: 0 <= i < |details| && details[i].id == k
  {
    if details != [] {
      var n := |details| - 1;
      var prefix := details[..n];
      ViewCountsKeys(prefix, k);
      assert forall i :: 0 <= i < n ==> prefix[i] == details[i];
      if details[n].id != k {
        assert forall i :: 0 <= i < |details| && details[i].id == k ==> i < n;
      }
    }
  }

  /** The entry for the last detail with id `k` is the one the map keeps. */
  lemma {:induction false} ViewCountsLast(details: seq<VideoDetailItem>, k: string, i: nat)
    requires i < |details| && details[i].id == k
    requires forall j :: i < j < |details| ==> details[j].id != k
    ensures k in ViewCounts(details) && ViewCounts(details)[k] == ParseInt64OrZero(details[i].viewCount)
    decreases |details|
  {
    var n := |details| - 1;
    if i < n {
      var prefix := details[..n];
      assert prefix[i] == details[i];
      assert forall j :: i < j < n ==> prefix[j] == details[j];
      ViewCountsLast(prefix, k, i);
    }
  }

  method BuildViewCounts(details: seq<VideoDetailItem>) returns (counts: map<string, int>)
    ensures counts == ViewCounts(details)
  {
    counts := map[];
    var i := 0;
    while i < |details|
      invariant i <= |details| && counts == ViewCounts(details[..i])
    {
      assert details[..i + 1][..i] == details[..i];
      var vc := ParseInt64OrZero(details[i].viewCount);
      counts := counts[details[i].id := vc];
      i := i + 1;
    }
    assert details[..i] == details;
  }

  /** `viewCounts[id]` in Go: the count, or 0 for an id without a detail entry. */
  function LookupViews(counts: map<string, int>, id: string): int {
    if id in counts then counts[id] else 0
  }

  /** currentTotalViews: the sum over the videos of their looked-up view counts. */
  function SumViews(videos: seq<VideoItem>, counts: map<string, int>): (r: int)
    ensures (forall i :: 0 <= i < |videos| ==> videos[i].videoId !in counts) ==> r == 0
    ensures (forall id :: id in counts ==> counts[id] >= 0) ==> r >= 0
  {
    if videos == [] then 0
    else SumViews(videos[..|videos| - 1], counts) + LookupViews(counts, videos[|videos| - 1].videoId)
  }

  /** The total splits over any division of the video list, and a video counts once
      wherever it stands. */
  lemma {:induction false} SumViewsAppend(a: seq<VideoItem>, b: seq<VideoItem>, counts: map<string, int>)
    ensures SumViews(a + b, counts) == SumViews(a, counts) + SumViews(b, counts)
    decreases |b|
  {
    if b == [] {
      assert a + b == a;
    } else {
      var n := |b| - 1;
      assert (a + b)[..|a + b| - 1] == a + b[..n];
      SumViewsAppend(a, b[..n], counts);
    }
  }

  /** latestEpisodeTime: the greatest publish time, kept by strict After. */
  function LatestPublished(videos: seq<VideoItem>): (r: Option<int>)
    ensures r.Some? <==> videos != []
    ensures r.Some? ==> exists i :: 0 <= i < |videos| && videos[i].publishedAt == r.value
    ensures r.Some? ==> forall i :: 0 <= i < |videos| ==> videos[i].publishedAt <= r.value
  {
    if videos == [] then None
    else
      var n := |videos| - 1;
      var previous := LatestPublished(videos[..n]);
      var v := videos[n];
      if previous.None? || v.publishedAt > previous.value then
        Some(v.publishedAt)
      else
        assert forall i :: 0 <= i < n ==> videos[..n][i] == videos[i];
        previous
  }

  /** earliestDate and firstEpisodeThumbnailURL: the smallest publish time, and the thumbnail
      of the first video in list order that has it (strict Before keeps earlier ties). */
  function EarliestOf(videos: seq<VideoItem>): (r: Option<Earliest>)
    ensures r.Some? <==> videos != []
    ensures r.Some? ==> forall i :: 0 <= i < |videos| ==> r.value.publishedAt <= videos[i].publishedAt
    ensures r.Some? ==> exists i :: (0 <= i < |videos|
              && videos[i].publishedAt == r.value.publishedAt && videos[i].highThumbnailUrl == r.value.thumbnailUrl
              && forall j :: 0 <= j < i ==> videos[j].publishedAt > r.value.publishedAt)
  {
    if videos == [] then None
    else
      var n := |videos| - 1;
      var previous := EarliestOf(videos[..n]);
      var v := videos[n];
      assert forall i :: 0 <= i < n ==> videos[..n][i] == videos[i];
      if previous.None? || v.publishedAt < previous.value.publishedAt then
        Some(Earliest(v.publishedAt, v.highThumbnailUrl))
      else
        previous
  }

  // ================================================================ store writes of one playlist

  function EpisodeNumberColumn(n: Option<nat>): Option<int> {
    match n
    case None => None
    case Some(x) => Some(x)
  }

  /** The playlist row stored for `p` under anime `animeId`. */
  function PlaylistRow(p: PlaylistItem, animeId: int): Playlist {
    Playlist(p.id, p.channelId, Some(animeId), p.title, Some(p.description), ExtractLanguage(p.title))
  }

  /** The episode row stored for video `v` of playlist `playlistId`. */
  function EpisodeRow(playlistId: string, v: VideoItem, counts: map<string, int>): Episode {
    Episode(v.videoId, playlistId, v.title, EpisodeNumberColumn(ExtractEpisodeNumber(v.title)),
            Some(v.publishedAt), Some(v.highThumbnailUrl), LookupViews(counts, v.videoId))
  }

  /** One episode upsert per video, in order, each refusal ignored: only the episodes table
      changes, and only under the videos' ids. */
  function EpisodesWritten(env: Env, t: Tables, playlistId: string, videos: seq<VideoItem>, counts: map<string, int>): (r: Tables)
    ensures r.channels == t.channels && r.animeIds == t.animeIds && r.animes == t.animes
    ensures r.nextAnimeId == t.nextAnimeId && r.playlists == t.playlists
    ensures t.episodes.Keys <= r.episodes.Keys <= t.episodes.Keys + VideoIdSet(videos)
    ensures forall k :: k in t.episodes && k !in VideoIdSet(videos) ==> r.episodes[k] == t.episodes[k]
    ensures Consistent(t) ==> Consistent(r)
  {
    if videos == [] then t
    else
      var n := |videos| - 1;
      var before := EpisodesWritten(env, t, playlistId, videos[..n], counts);
      VideoIdSetLast(videos);
      UpsertEpisodeStep(env, before, EpisodeRow(playlistId, videos[n], counts)).tables
  }

  /** The ids of the videos. */
  function VideoIdSet(videos: seq<VideoItem>): set<string> {
    set v | v in videos :: v.videoId
  }

  /** The ids of a non-empty list: those of all but the last video, and the last one's. */
  lemma VideoIdSetLast(videos: seq<VideoItem>)
    requires videos != []
    ensures VideoIdSet(videos) == VideoIdSet(videos[..|videos| - 1]) + {videos[|videos| - 1].videoId}
  {
    var n := |videos| - 1;
    assert videos == videos[..n] + [videos[n]];
  }

  /** The view count stored under `k` before the loop, 0 when there is no such row. */
  function StoredViews(t: Tables, k: string): int {
    if k in t.episodes then t.episodes[k].viewCount else 0
  }

  /** The episode loop never changes a view count: every row it leaves carries the count
      stored before the loop, or 0 for a row it created. */
  lemma {:induction false} EpisodesWrittenViews(env: Env, t: Tables, playlistId: string, videos: seq<VideoItem>, counts: map<string, int>, k: string)
    ensures var r := EpisodesWritten(env, t, playlistId, videos, counts).episodes;
            k in r ==> r[k].viewCount == StoredViews(t, k)
    decreases |videos|
  {
    if videos != [] {
      var n := |videos| - 1;
      var prefix := videos[..n];
      EpisodesWrittenViews(env, t, playlistId, prefix, counts, k);
      var before := EpisodesWritten(env, t, playlistId, prefix, counts);
      var e := EpisodeRow(playlistId, videos[n], counts);
      EpisodesWrittenLast(env, t, playlistId, videos, counts);
      UpsertKeepsViews(env, t, before, e, k);
    }
  }

  /** An upsert, accepted or refused, keeps every stored view count, and a row it creates
      counts 0 views. */
  lemma UpsertKeepsViews(env: Env, t: Tables, before: Tables, e: Episode, k: string)
    requires t.episodes.Keys <= before.episodes.Keys
    requires k in before.episodes ==> before.episodes[k].viewCount == StoredViews(t, k)
    ensures var r := UpsertEpisodeStep(env, before, e).tables.episodes;
            k in r ==> r[k].viewCount == StoredViews(t, k)
  {
  }

  /** What the loop leaves under a video's id once the last upsert for that id goes through:
      that video's row (its title, extracted episode number, publish time and thumbnail)
      with the view count of `EpisodesWrittenViews`. */
  lemma {:induction false} EpisodesWrittenRow(env: Env, t: Tables, playlistId: string, videos: seq<VideoItem>, counts: map<string, int>, i: nat)
    requires i < |videos|
    requires forall j :: i < j < |videos| ==> videos[j].videoId != videos[i].videoId
    requires var e := EpisodeRow(playlistId, videos[i], counts);
             !env.refuses(UpsertEpisodeStatement(e.videoId, e.playlistId, e.title, e.episodeNumber, e.publishedAt, e.thumbnailUrl))
    ensures var k := videos[i].videoId;
            var r := EpisodesWritten(env, t, playlistId, videos, counts).episodes;
            k in r && r[k] == EpisodeRow(playlistId, videos[i], counts).(viewCount := StoredViews(t, k))
    decreases |videos|
  {
    if i == |videos| - 1 {
      RowOfLastVideo(env, t, playlistId, videos, counts);
    } else {
      LastOccurrenceInPrefix(videos, i);
      EpisodesWrittenRow(env, t, playlistId, videos[..|videos| - 1], counts, i);
      RowOfEarlierVideo(env, t, playlistId, videos, counts, i);
    }
  }

  /** The last video with a given id before the end is still the last one in the prefix. */
  lemma LastOccurrenceInPrefix(videos: seq<VideoItem>, i: nat)
    requires i < |videos| - 1
    requires forall j :: i < j < |videos| ==> videos[j].videoId != videos[i].videoId
    ensures var prefix := videos[..|videos| - 1];
            prefix[i] == videos[i] && forall j :: i < j < |prefix| ==> prefix[j].videoId != prefix[i].videoId
  {
  }

  /** The last step of the loop: the upsert of the last video on what the others left. */
  lemma EpisodesWrittenLast(env: Env, t: Tables, playlistId: string, videos: seq<VideoItem>, counts: map<string, int>)
    requires videos != []
    ensures var n := |videos| - 1;
            EpisodesWritten(env, t, playlistId, videos, counts)
              == UpsertEpisodeStep(env, EpisodesWritten(env, t, playlistId, videos[..n], counts), EpisodeRow(playlistId, videos[n], counts)).tables
  {
  }

  lemma RowOfLastVideo(env: Env, t: Tables, playlistId: string, videos: seq<VideoItem>, counts: map<string, int>)
    requires videos != []
    requires var e := EpisodeRow(playlistId, videos[|videos| - 1], counts);
             !env.refuses(UpsertEpisodeStatement(e.videoId, e.playlistId, e.title, e.episodeNumber, e.publishedAt, e.thumbnailUrl))
    ensures var v := videos[|videos| - 1];
            var r := EpisodesWritten(env, t, playlistId, videos, counts).episodes;
            v.videoId in r && r[v.videoId] == EpisodeRow(playlistId, v, counts).(viewCount := StoredViews(t, v.videoId))
  {
    var n := |videos| - 1;
    var before := EpisodesWritten(env, t, playlistId, videos[..n], counts);
    EpisodesWrittenLast(env, t, playlistId, videos, counts);
    EpisodesWrittenViews(env, t, playlistId, videos[..n], counts, videos[n].videoId);
    LastUpsertRow(env, t, before, EpisodeRow(playlistId, videos[n], counts));
  }

  lemma RowOfEarlierVideo(env: Env, t: Tables, playlistId: string, videos: seq<VideoItem>, counts: map<string, int>, i: nat)
    requires i < |videos| - 1 && videos[|videos| - 1].videoId != videos[i].videoId
    requires var k := videos[i].videoId;
             var r := EpisodesWritten(env, t, playlistId, videos[..|videos| - 1], counts).episodes;
             k in r && r[k] == EpisodeRow(playlistId, videos[i], counts).(viewCount := StoredViews(t, k))
    ensures var k := videos[i].videoId;
            var r := EpisodesWritten(env, t, playlistId, videos, counts).episodes;
            k in r && r[k] == EpisodeRow(playlistId, videos[i], counts).(viewCount := StoredViews(t, k))
  {
    var n := |videos| - 1;
    var before := EpisodesWritten(env, t, playlistId, videos[..n], counts);
    EpisodesWrittenLast(env, t, playlistId, videos, counts);
    OtherUpsertKeeps(env, before, EpisodeRow(playlistId, videos[n], counts), videos[i].videoId);
  }

  /** An accepted upsert of e stores e, keeping the view count already stored. */
  lemma LastUpsertRow(env: Env, t: Tables, before: Tables, e: Episode)
    requires t.episodes.Keys <= before.episodes.Keys
    requires e.videoId in before.episodes ==> before.episodes[e.videoId].viewCount == StoredViews(t, e.videoId)
    requires !env.refuses(UpsertEpisodeStatement(e.videoId, e.playlistId, e.title, e.episodeNumber, e.publishedAt, e.thumbnailUrl))
    ensures var r := UpsertEpisodeStep(env, before, e).tables.episodes;
            e.videoId in r && r[e.videoId] == e.(viewCount := StoredViews(t, e.videoId))
  {
  }

  /** An upsert under another id leaves the row under k as it was. */
  lemma OtherUpsertKeeps(env: Env, before: Tables, e: Episode, k: string)
    requires k in before.episodes && k != e.videoId
    ensures var r := UpsertEpisodeStep(env, before, e).tables.episodes;
            k in r && r[k] == before.episodes[k]
  {
  }

  /** The previous total the worker subtracts: the stored total, or 0 when the read fails. */
  function PreviousTotal(env: Env, t: Tables, id: int): (r: int)
    ensures !env.refuses(SelectViewData(id)) && id in t.animes ==> r == t.animes[id].totalViewCount
    ensures env.refuses(SelectViewData(id)) || id !in t.animes ==> r == 0
  {
    var stored := GetAnimeViewDataStep(env, t, id);
    if stored.Success? then stored.value else 0
  }

  /** The anime updates after the episode loop: totals and weekly increase, last_updated when
      a latest time exists, the guarded thumbnail when an earliest video exists. Only the
      anime's own row changes, and a thumbnail it already has stays. */
  function AnimeStatsWritten(env: Env, t: Tables, id: int, total: int, latest: Option<int>, earliest: Option<Earliest>): (r: Tables)
    ensures OnlyAnimeRowChanged(t, r, id)
    ensures Consistent(t) ==> Consistent(r)
    ensures id in t.animes && !env.refuses(UpdateViewData(id, total, total - PreviousTotal(env, t, id))) ==>
              r.animes[id].totalViewCount == total
              && r.animes[id].weeklyViewIncrease == total - PreviousTotal(env, t, id)
    ensures id in t.animes && env.refuses(UpdateViewData(id, total, total - PreviousTotal(env, t, id))) ==>
              r.animes[id].totalViewCount == t.animes[id].totalViewCount
              && r.animes[id].weeklyViewIncrease == t.animes[id].weeklyViewIncrease
    ensures id in t.animes ==>
              r.animes[id].lastUpdated == (if latest.Some? && !env.refuses(UpdateLastUpdated(id, latest.value))
                                           then Some(latest.value) else t.animes[id].lastUpdated)
    ensures id in t.animes && t.animes[id].thumbnailUrl.None? && earliest.Some? ==>
              var url := earliest.value.thumbnailUrl;
              r.animes[id].thumbnailUrl ==
                (if url == "" || !env.isRequestUri(url) || env.refuses(UpdateThumbnail(id, url)) then None else Some(url))
    ensures id in t.animes && (t.animes[id].thumbnailUrl.Some? || earliest.None?) ==>
              r.animes[id].thumbnailUrl == t.animes[id].thumbnailUrl
  {
    var t1 := ViewTotalsStage(env, t, id, total);
    var t2 := LastUpdatedStage(env, t1, id, latest);
    var r := ThumbnailStage(env, t2, id, earliest);
    OnlyAnimeRowChangedRetains(t, t1, t2, r, id);
    assert id in t.animes ==> t2.animes[id].thumbnailUrl == t.animes[id].thumbnailUrl
                              && t2.animes[id].totalViewCount == t1.animes[id].totalViewCount
                              && t2.animes[id].weeklyViewIncrease == t1.animes[id].weeklyViewIncrease;
    r
  }

  /** Three updates of one anime row that leave an existing thumbnail alone keep every row,
      title id and thumbnail of the tables they start from. */
  lemma OnlyAnimeRowChangedRetains(t: Tables, t1: Tables, t2: Tables, r: Tables, id: int)
    requires OnlyAnimeRowChanged(t, t1, id) && OnlyAnimeRowChanged(t1, t2, id) && OnlyAnimeRowChanged(t2, r, id)
    requires id in t.animes ==> t1.animes[id].thumbnailUrl == t.animes[id].thumbnailUrl
                                && t2.animes[id].thumbnailUrl == t1.animes[id].thumbnailUrl
    requires id in t2.animes && t2.animes[id].thumbnailUrl.Some? ==> r.animes[id].thumbnailUrl == t2.animes[id].thumbnailUrl
    ensures OnlyAnimeRowChanged(t, r, id) && Retains(t, r)
  {
  }

  /** The view-data read and update: total and weekly increase, unless the update is refused. */
  function ViewTotalsStage(env: Env, t: Tables, id: int, total: int): (r: Tables)
    ensures OnlyAnimeRowChanged(t, r, id) && (Consistent(t) ==> Consistent(r))
    ensures id in t.animes ==>
              r.animes[id] == (if env.refuses(UpdateViewData(id, total, total - PreviousTotal(env, t, id))) then t.animes[id]
                               else t.animes[id].(totalViewCount := total, weeklyViewIncrease := total - PreviousTotal(env, t, id)))
  {
    UpdateAnimeViewDataStep(env, t, id, total, total - PreviousTotal(env, t, id)).tables
  }

  /** The last_updated update, issued only when some video had a publish time. */
  function LastUpdatedStage(env: Env, t: Tables, id: int, latest: Option<int>): (r: Tables)
    ensures OnlyAnimeRowChanged(t, r, id) && (Consistent(t) ==> Consistent(r))
    ensures id in t.animes ==>
              r.animes[id] == (if latest.Some? && !env.refuses(UpdateLastUpdated(id, latest.value))
                               then t.animes[id].(lastUpdated := Some(latest.value)) else t.animes[id])
  {
    if latest.Some? then UpdateAnimeLastUpdatedStep(env, t, id, latest.value).tables else t
  }

  /** The thumbnail update, issued only when some video was seen; it fills an empty thumbnail
      with a non-empty request URI unless refused. */
  function ThumbnailStage(env: Env, t: Tables, id: int, earliest: Option<Earliest>): (r: Tables)
    ensures OnlyAnimeRowChanged(t, r, id) && (Consistent(t) ==> Consistent(r))
    ensures id in t.animes ==>
              r.animes[id] == (if earliest.Some? && t.animes[id].thumbnailUrl.None? && earliest.value.thumbnailUrl != ""
                                  && env.isRequestUri(earliest.value.thumbnailUrl)
                                  && !env.refuses(UpdateThumbnail(id, earliest.value.thumbnailUrl))
                               then t.animes[id].(thumbnailUrl := Some(earliest.value.thumbnailUrl)) else t.animes[id])
  {
    if earliest.Some? then UpdateAnimeThumbnailUrlStep(env, t, id, earliest.value.thumbnailUrl).tables else t
  }

  // ================================================================ one playlist

  function VideoIdList(videos: seq<VideoItem>): seq<string> {
    seq(|videos|, i requires 0 <= i < |videos| => videos[i].videoId)
  }

  /** What the provider reports for a playlist when both fetches succeed and list some
      video: the videos in order and the view counts of their statistics. */
  ghost function Observed(api: Api, playlistId: string, bound: nat): (r: Option<(seq<VideoItem>, map<string, int>)>)
    requires PagesEnd(api.videosPage, playlistId, "", bound)
    ensures r.Some? ==> r.value.0 != []
  {
    var videos := Collect(api.videosPage, playlistId, "", bound);
    if videos.Failure? || videos.value == [] then None
    else
      var details := FetchChunks(api.videoStatistics, Chunks(VideoIdList(videos.value)));
      if details.Failure? then None else Some((videos.value, ViewCounts(details.value)))
  }

  /** The part of the playlist body after the playlist row is stored: fetch the videos (a
      failure or an empty list ends the playlist), fetch their statistics (a failure ends the
      playlist), write the episodes, then the anime's totals, last-updated time and thumbnail. */
  ghost function ReconcileVideos(env: Env, api: Api, t: Tables, playlistId: string, animeId: int, bound: nat): (r: Tables)
    requires Consistent(t) && PagesEnd(api.videosPage, playlistId, "", bound)
    ensures Consistent(r)
    ensures Observed(api, playlistId, bound).None? ==> r == t
  {
    match Observed(api, playlistId, bound)
    case None => t
    case Some((videos, counts)) =>
      var t1 := EpisodesWritten(env, t, playlistId, videos, counts);
      AnimeStatsWritten(env, t1, animeId, SumViews(videos, counts), LatestPublished(videos), EarliestOf(videos))
  }

  /** The first half of the playlist body: find or create the anime of the playlist's
      canonical title, then store the playlist row under it. The result is the anime id when
      both statements went through; either way no episode, no channel and no anime row that
      existed before changes. */
  function PlaylistStored(env: Env, t: Tables, p: PlaylistItem): (r: Step<Option<int>>)
    requires Consistent(t)
    ensures Consistent(r.tables) && Retains(t, r.tables)
    ensures r.tables.episodes == t.episodes && r.tables.channels == t.channels
    ensures forall id :: id in t.animes ==> id in r.tables.animes && r.tables.animes[id] == t.animes[id]
    ensures r.result.Some? ==>
              var found := AnimeByTitle(r.tables, ExtractAnimeTitle(p.title));
              found.Some? && found.value.id == r.result.value
              && p.id in r.tables.playlists && r.tables.playlists[p.id] == PlaylistRow(p, r.result.value)
    ensures r.result.Some? ==>
              var title := ExtractAnimeTitle(p.title);
              r.result.value in r.tables.animes
              && r.tables.animes[r.result.value] ==
                   (if AnimeByTitle(t, title).Some? then AnimeByTitle(t, title).value
                    else NewAnime(title, p.description).(id := r.result.value))
  {
    var found := FindOrCreateAnimeStep(env, t, ExtractAnimeTitle(p.title), p.description);
    if found.result.Failure? then Step(found.tables, None)
    else
      var listed := UpsertPlaylistStep(env, found.tables, PlaylistRow(p, found.result.value));
      if listed.result.Fail? then Step(listed.tables, None)
      else Step(listed.tables, Some(found.result.value))
  }

  /** What the worker does with one listed playlist (the body of the playlist loop): skip an
      irrelevant one, find or create its anime and store the playlist row (a failure of
      either skips it), then the videos. */
  ghost function ReconcilePlaylist(env: Env, api: Api, t: Tables, p: PlaylistItem, bound: nat): (r: Tables)
    requires Consistent(t) && PagesEnd(api.videosPage, p.id, "", bound)
    ensures Consistent(r)
    ensures !IsRelevantPlaylist(p.title) ==> r == t
  {
    if !IsRelevantPlaylist(p.title) then t
    else
      var stored := PlaylistStored(env, t, p);
      if stored.result.None? then stored.tables
      else ReconcileVideos(env, api, stored.tables, p.id, stored.result.value, bound)
  }

  /** One more video extends each fold of the episode loop by that video alone. */
  lemma EpisodeLoopStep(env: Env, t: Tables, playlistId: string, videos: seq<VideoItem>, counts: map<string, int>, i: nat)
    requires i < |videos|
    ensures var prefix := videos[..i];
            var v := videos[i];
            var latest := LatestPublished(prefix);
            var earliest := EarliestOf(prefix);
            && EpisodesWritten(env, t, playlistId, videos[..i + 1], counts)
                 == UpsertEpisodeStep(env, EpisodesWritten(env, t, playlistId, prefix, counts), EpisodeRow(playlistId, v, counts)).tables
            && SumViews(videos[..i + 1], counts) == SumViews(prefix, counts) + LookupViews(counts, v.videoId)
            && LatestPublished(videos[..i + 1])
                 == (if latest.None? || v.publishedAt > latest.value then Some(v.publishedAt) else latest)
            && EarliestOf(videos[..i + 1])
                 == (if earliest.None? || v.publishedAt < earliest.value.publishedAt
                     then Some(Earliest(v.publishedAt, v.highThumbnailUrl)) else earliest)
  {
    assert videos[..i + 1][..i] == videos[..i] && videos[..i + 1][i] == videos[i];
  }

  /** One video of the episode loop: upsert its episode row (a refusal is ignored) and return
      the view count the row carries. */
  method WriteEpisode(store: Store, playlistId: string, v: VideoItem, counts: map<string, int>) returns (views: int)
    requires store.Valid()
    modifies store
    ensures store.Valid()
    ensures store.State() == UpsertEpisodeStep(store.env, old(store.State()), EpisodeRow(playlistId, v, counts)).tables
    ensures views == LookupViews(counts, v.videoId)
  {
    var episode := EpisodeRow(playlistId, v, counts);
    var _ := store.UpsertEpisode(episode);
    views := episode.viewCount;
  }

  /** The episode loop: upsert every video as an episode (a refusal is ignored) while
      accumulating the total views, the latest time and the earliest time with its thumbnail. */
  method WriteEpisodes(store: Store, playlistId: string, videos: seq<VideoItem>, counts: map<string, int>)
    returns (currentTotalViews: int, latestEpisodeTime: Option<int>, earliest: Option<Earliest>)
    requires store.Valid()
    modifies store
    ensures store.Valid()
    ensures store.State() == EpisodesWritten(store.env, old(store.State()), playlistId, videos, counts)
    ensures currentTotalViews == SumViews(videos, counts)
    ensures latestEpisodeTime == LatestPublished(videos) && earliest == EarliestOf(videos)
  {
    currentTotalViews := 0;
    latestEpisodeTime := None;
    earliest := None;
    var i := 0;
    while i < |videos|
      invariant i <= |videos|
      invariant store.Valid()
      invariant store.State() == EpisodesWritten(store.env, old(store.State()), playlistId, videos[..i], counts)
      invariant currentTotalViews == SumViews(videos[..i], counts)
      invariant latestEpisodeTime == LatestPublished(videos[..i])
      invariant earliest == EarliestOf(videos[..i])
    {
      var v := videos[i];
      EpisodeLoopStep(store.env, old(store.State()), playlistId, videos, counts, i);
      var views := WriteEpisode(store, playlistId, v, counts);
      assert store.State() == EpisodesWritten(store.env, old(store.State()), playlistId, videos[..i + 1], counts);
      currentTotalViews := currentTotalViews + views;
      if latestEpisodeTime.None? || v.publishedAt > latestEpisodeTime.value {
        latestEpisodeTime := Some(v.publishedAt);
      }
      if earliest.None? || v.publishedAt < earliest.value.publishedAt {
        earliest := Some(Earliest(v.publishedAt, v.highThumbnailUrl));
      }
      i := i + 1;
    }
    assert videos[..i] == videos;
  }

  /** The anime updates after the episode loop; every refusal is ignored. */
  method WriteAnimeStats(store: Store, animeId: int, currentTotalViews: int, latestEpisodeTime: Option<int>, earliest: Option<Earliest>)
    requires store.Valid()
    modifies store
    ensures store.Valid()
    ensures store.State() == AnimeStatsWritten(store.env, old(store.State()), animeId, currentTotalViews, latestEpisodeTime, earliest)
  {
    var stored := store.GetAnimeViewData(animeId);
    var oldTotalViews := if stored.Success? then stored.value else 0;
    var weeklyIncrease := currentTotalViews - oldTotalViews;
    var _ := store.UpdateAnimeViewData(animeId, currentTotalViews, weeklyIncrease);
    ghost var t1 := store.State();
    assert t1 == ViewTotalsStage(store.env, old(store.State()), animeId, currentTotalViews);
    if latestEpisodeTime.Some? {
      var _ := store.UpdateAnimeLastUpdated(animeId, latestEpisodeTime.value);
    }
    ghost var t2 := store.State();
    assert t2 == LastUpdatedStage(store.env, t1, animeId, latestEpisodeTime);
    if earliest.Some? {
      var _ := store.UpdateAnimeThumbnailUrl(animeId, earliest.value.thumbnailUrl);
    }
    assert store.State() == ThumbnailStage(store.env, t2, animeId, earliest);
  }

  method ProcessVideos(store: Store, api: Api, playlistId: string, animeId: int, ghost bound: nat)
    requires store.Valid() && PagesEnd(api.videosPage, playlistId, "", bound)
    modifies store
    ensures store.Valid()
    ensures store.State() == ReconcileVideos(store.env, api, old(store.State()), playlistId, animeId, bound)
  {
    var fetched := GetVideosForPlaylist(api, playlistId, bound);
    if fetched.Failure? || |fetched.value| == 0 {
      return;
    }
    var videos := fetched.value;
    var videoIds := CollectVideoIds(videos);
    assert videoIds == VideoIdList(videos);
    var details := GetVideoDetails(api, videoIds);
    if details.Failure? {
      return;
    }
    var counts := BuildViewCounts(details.value);
    var currentTotalViews, latestEpisodeTime, earliest := WriteEpisodes(store, playlistId, videos, counts);
    WriteAnimeStats(store, animeId, currentTotalViews, latestEpisodeTime, earliest);
  }

  method ProcessPlaylist(store: Store, api: Api, p: PlaylistItem, ghost bound: nat)
    requires store.Valid() && PagesEnd(api.videosPage, p.id, "", bound)
    modifies store
    ensures store.Valid()
    ensures store.State() == ReconcilePlaylist(store.env, api, old(store.State()), p, bound)
  {
    if !IsRelevantPlaylist(p.title) {
      return;
    }
    var animeTitle := ExtractAnimeTitle(p.title);
    var found := FindOrCreateAnime(store, animeTitle, p.description);
    if found.Failure? {
      return;
    }
    var animeId := found.value;
    var listed := store.UpsertPlaylist(PlaylistRow(p, animeId));
    if listed.Fail? {
      return;
    }
    ProcessVideos(store, api, p.id, animeId, bound);
  }

  // ================================================================ channels and the run

  /** The profile picture path passed with the channel: the local image path when the
      provider gave a picture URL, "" otherwise (a failed request gives ""). */
  function ProfilePicturePath(picture: Result<string, FeedError>, channelId: string): (r: string)
    ensures r != "" <==> picture.Success? && picture.value != ""
    ensures r != "" ==> r == "/img/channels/" + channelId + ".jpg"
  {
    if picture.Success? && picture.value != "" then "/img/channels/" + channelId + ".jpg" else ""
  }

  /** The channel passed to UpsertChannel: the configured id and name, the channel URL, and
      the profile picture path. */
  function ChannelRow(api: Api, src: Source): (r: Channel)
    ensures r.id == src.id && r.name == src.name && r.url == ChannelUrlPrefix + src.id
    ensures r.profilePictureUrl == Some(ProfilePicturePath(GetChannelProfilePicture(api, src.id), src.id))
  {
    Channel(src.id, src.name, ChannelUrlPrefix + src.id,
            Some(ProfilePicturePath(GetChannelProfilePicture(api, src.id), src.id)))
  }

  /** UpsertChannel never writes profile_picture_url: whatever picture the provider reports,
      storing the channel gives the same outcome and the same tables, and the column keeps
      what it held (NULL for a new channel). */
  lemma ChannelPictureIgnored(env: Env, t: Tables, api1: Api, api2: Api, src: Source)
    ensures UpsertChannelStep(env, t, ChannelRow(api1, src)) == UpsertChannelStep(env, t, ChannelRow(api2, src))
    ensures var r := UpsertChannelStep(env, t, ChannelRow(api1, src)).tables;
            src.id in r.channels ==>
              r.channels[src.id].profilePictureUrl == (if src.id in t.channels then t.channels[src.id].profilePictureUrl else None)
  {
    var c1 := ChannelRow(api1, src);
    var c2 := ChannelRow(api2, src);
    assert ChannelUpserted(t, c1) == ChannelUpserted(t, c2);
  }

  /** The playlist loop of one channel: the playlists in listed order. */
  ghost function ReconcilePlaylists(env: Env, api: Api, t: Tables, playlists: seq<PlaylistItem>, bound: nat): (r: Tables)
    requires Consistent(t) && FeedsEnd(api, bound)
    ensures Consistent(r)
  {
    if playlists == [] then t
    else
      var n := |playlists| - 1;
      ReconcilePlaylist(env, api, ReconcilePlaylists(env, api, t, playlists[..n], bound), playlists[n], bound)
  }

  /** Reconciling one more playlist of the listing extends the prefix by that playlist. */
  lemma PlaylistsPrefixStep(env: Env, api: Api, t: Tables, playlists: seq<PlaylistItem>, i: nat, bound: nat)
    requires Consistent(t) && FeedsEnd(api, bound) && i < |playlists|
    ensures ReconcilePlaylists(env, api, t, playlists[..i + 1], bound)
         == ReconcilePlaylist(env, api, ReconcilePlaylists(env, api, t, playlists[..i], bound), playlists[i], bound)
  {
    assert playlists[..i + 1][..i] == playlists[..i];
  }

  /** The database refuses the channel's upsert, so the run skips that channel. */
  predicate ChannelRefused(env: Env, src: Source) {
    env.refuses(UpsertChannelStatement(src.id, src.name, ChannelUrlPrefix + src.id))
  }

  /** One channel: store it (a refusal skips the channel), list its playlists (a failure
      skips the channel), then reconcile each playlist. */
  ghost function ReconcileChannel(env: Env, api: Api, t: Tables, src: Source, bound: nat): (r: Tables)
    requires Consistent(t) && FeedsEnd(api, bound)
    ensures Consistent(r)
    ensures ChannelRefused(env, src) ==> r == t
  {
    var stored := UpsertChannelStep(env, t, ChannelRow(api, src));
    if stored.result.Fail? then t
    else
      var playlists := Collect(api.playlistsPage, src.id, "", bound);
      if playlists.Failure? then stored.tables
      else ReconcilePlaylists(env, api, stored.tables, playlists.value, bound)
  }

  /** runWorker: the channels one after the other. */
  ghost function RunWorkerSpec(env: Env, api: Api, t: Tables, sources: seq<Source>, bound: nat): (r: Tables)
    requires Consistent(t) && FeedsEnd(api, bound)
    ensures Consistent(r)
    ensures (forall i :: 0 <= i < |sources| ==> ChannelRefused(env, sources[i])) ==> r == t
  {
    if sources == [] then t
    else
      var n := |sources| - 1;
      ReconcileChannel(env, api, RunWorkerSpec(env, api, t, sources[..n], bound), sources[n], bound)
  }

  method ProcessPlaylists(store: Store, api: Api, playlists: seq<PlaylistItem>, ghost bound: nat)
    requires store.Valid() && FeedsEnd(api, bound)
    modifies store
    ensures store.Valid()
    ensures store.State() == ReconcilePlaylists(store.env, api, old(store.State()), playlists, bound)
  {
    var i := 0;
    while i < |playlists|
      invariant i <= |playlists|
      invariant store.Valid()
      invariant store.State() == ReconcilePlaylists(store.env, api, old(store.State()), playlists[..i], bound)
    {
      PlaylistsPrefixStep(store.env, api, old(store.State()), playlists, i, bound);
      ProcessPlaylist(store, api, playlists[i], bound);
      i := i + 1;
    }
    assert playlists[..i] == playlists;
  }

  method ProcessChannel(store: Store, api: Api, src: Source, ghost bound: nat)
    requires store.Valid() && FeedsEnd(api, bound)
    modifies store
    ensures store.Valid()
    ensures store.State() == ReconcileChannel(store.env, api, old(store.State()), src, bound)
  {
    var picture := GetChannelProfilePicture(api, src.id);
    var localImagePath := "";
    if picture.Success? && picture.value != "" {
      localImagePath := "/img/channels/" + src.id + ".jpg";
    }
    var channelUrl := ChannelUrlPrefix + src.id;
    var channel := Channel(src.id, src.name, channelUrl, Some(localImagePath));
    assert channel == ChannelRow(api, src);
    var stored := store.UpsertChannel(channel);
    if stored.Fail? {
      return;
    }
    assert PagesEnd(api.playlistsPage, src.id, "", bound);
    var listed := GetPlaylistsForChannel(api, src.id, bound);
    if listed.Failure? {
      return;
    }
    ProcessPlaylists(store, api, listed.value, bound);
  }

  method RunWorker(store: Store, api: Api, sources: seq<Source>, ghost bound: nat)
    requires store.Valid() && FeedsEnd(api, bound)
    modifies store
    ensures store.Valid()
    ensures store.State() == RunWorkerSpec(store.env, api, old(store.State()), sources, bound)
  {
    var i := 0;
    while i < |sources|
      invariant i <= |sources|
      invariant store.Valid()
      invariant store.State() == RunWorkerSpec(store.env, api, old(store.State()), sources[..i], bound)
    {
      assert sources[..i + 1][..i] == sources[..i];
      ProcessChannel(store, api, sources[i], bound);
      i := i + 1;
    }
    assert sources[..i] == sources;
  }

  // ================================================================ what a run keeps

  /** The anime updates keep every row, title id and thumbnail. */
  lemma AnimeStatsRetains(env: Env, t: Tables, id: int, total: int, latest: Option<int>, earliest: Option<Earliest>)
    ensures Retains(t, AnimeStatsWritten(env, t, id, total, latest, earliest))
  {
  }

  lemma ReconcileVideosRetains(env: Env, api: Api, t: Tables, playlistId: string, animeId: int, bound: nat)
    requires Consistent(t) && PagesEnd(api.videosPage, playlistId, "", bound)
    ensures Retains(t, ReconcileVideos(env, api, t, playlistId, animeId, bound))
  {
    match Observed(api, playlistId, bound)
    case None =>
    case Some((videos, counts)) =>
      var t1 := EpisodesWritten(env, t, playlistId, videos, counts);
      var r := AnimeStatsWritten(env, t1, animeId, SumViews(videos, counts), LatestPublished(videos), EarliestOf(videos));
      EpisodesWrittenRetains(env, t, playlistId, videos, counts);
      AnimeStatsRetains(env, t1, animeId, SumViews(videos, counts), LatestPublished(videos), EarliestOf(videos));
      RetainsTransitive(t, t1, r);
  }

  lemma EpisodesWrittenRetains(env: Env, t: Tables, playlistId: string, videos: seq<VideoItem>, counts: map<string, int>)
    ensures Retains(t, EpisodesWritten(env, t, playlistId, videos, counts))
  {
  }

  lemma ReconcilePlaylistRetains(env: Env, api: Api, t: Tables, p: PlaylistItem, bound: nat)
    requires Consistent(t) && PagesEnd(api.videosPage, p.id, "", bound)
    ensures Retains(t, ReconcilePlaylist(env, api, t, p, bound))
  {
    if IsRelevantPlaylist(p.title) {
      var stored := PlaylistStored(env, t, p);
      if stored.result.Some? {
        ReconcileVideosRetains(env, api, stored.tables, p.id, stored.result.value, bound);
        RetainsTransitive(t, stored.tables, ReconcileVideos(env, api, stored.tables, p.id, stored.result.value, bound));
      }
    }
  }

  lemma {:induction false} ReconcilePlaylistsRetains(env: Env, api: Api, t: Tables, playlists: seq<PlaylistItem>, bound: nat)
    requires Consistent(t) && FeedsEnd(api, bound)
    ensures Retains(t, ReconcilePlaylists(env, api, t, playlists, bound))
  {
    if playlists != [] {
      var n := |playlists| - 1;
      var before := ReconcilePlaylists(env, api, t, playlists[..n], bound);
      ReconcilePlaylistsRetains(env, api, t, playlists[..n], bound);
      ReconcilePlaylistRetains(env, api, before, playlists[n], bound);
      RetainsTransitive(t, before, ReconcilePlaylist(env, api, before, playlists[n], bound));
    }
  }

  lemma ReconcileChannelRetains(env: Env, api: Api, t: Tables, src: Source, bound: nat)
    requires Consistent(t) && FeedsEnd(api, bound)
    ensures Retains(t, ReconcileChannel(env, api, t, src, bound))
  {
    var stored := UpsertChannelStep(env, t, ChannelRow(api, src));
    ChannelStepRetains(env, t, ChannelRow(api, src));
    if stored.result.Pass? {
      var playlists := Collect(api.playlistsPage, src.id, "", bound);
      if playlists.Success? {
        var r := ReconcilePlaylists(env, api, stored.tables, playlists.value, bound);
        assert ReconcileChannel(env, api, t, src, bound) == r;
        ReconcilePlaylistsRetains(env, api, stored.tables, playlists.value, bound);
        RetainsTransitive(t, stored.tables, r);
      }
    }
  }

  lemma ChannelStepRetains(env: Env, t: Tables, c: Channel)
    ensures Retains(t, UpsertChannelStep(env, t, c).tables)
  {
  }

  /** A run never deletes a row, never moves a title to another anime id and never replaces a
      thumbnail once set, whatever the provider serves and whatever the database refuses. */
  lemma {:induction false} RunWorkerRetains(env: Env, api: Api, t: Tables, sources: seq<Source>, bound: nat)
    requires Consistent(t) && FeedsEnd(api, bound)
    ensures Retains(t, RunWorkerSpec(env, api, t, sources, bound))
  {
    if sources != [] {
      var n := |sources| - 1;
      var before := RunWorkerSpec(env, api, t, sources[..n], bound);
      RunWorkerRetains(env, api, t, sources[..n], bound);
      ReconcileChannelRetains(env, api, before, sources[n], bound);
      RetainsTransitive(t, before, ReconcileChannel(env, api, before, sources[n], bound));
    }
  }

  // ================================================================ properties of a pass

  /** A playlist the provider yields no videos or statistics for gets no episode and no
      update of an anime that already existed (only its anime may be created and its playlist
      row written). */
  lemma PlaylistWithoutVideos(env: Env, api: Api, t: Tables, p: PlaylistItem, bound: nat)
    requires Consistent(t) && PagesEnd(api.videosPage, p.id, "", bound)
    requires Observed(api, p.id, bound).None?
    ensures var r := ReconcilePlaylist(env, api, t, p, bound);
            r.episodes == t.episodes && r.channels == t.channels
            && forall id :: id in t.animes ==> id in r.animes && r.animes[id] == t.animes[id]
  {
    if IsRelevantPlaylist(p.title) {
      assert ReconcilePlaylist(env, api, t, p, bound) == PlaylistStored(env, t, p).tables;
    }
  }

  /** With every statement accepted, such a playlist still gets its anime and its playlist row,
      which points at that anime and carries the title's language. */
  lemma PlaylistRowWithoutVideos(env: Env, api: Api, t: Tables, p: PlaylistItem, bound: nat)
    requires Consistent(t) && PagesEnd(api.videosPage, p.id, "", bound)
    requires Observed(api, p.id, bound).None? && IsRelevantPlaylist(p.title)
    requires forall s :: !env.refuses(s)
    ensures var r := ReconcilePlaylist(env, api, t, p, bound);
            var found := AnimeByTitle(r, ExtractAnimeTitle(p.title));
            found.Some? && p.id in r.playlists && r.playlists[p.id] == PlaylistRow(p, found.value.id)
            && r.playlists[p.id].language == ExtractLanguage(p.title)
  {
    AnimeStageRow(env, t, p);
    var stored := PlaylistStored(env, t, p);
    assert stored.result.Some?;
    assert ReconcilePlaylist(env, api, t, p, bound) == stored.tables;
  }

  /** The anime row the video stage leaves, given the row it starts from: total, weekly
      increase against the stored total (0 when the read is refused), latest publish time,
      and the earliest video's thumbnail only where the row had none and the URL passes. */
  ghost predicate StatsWritten(env: Env, before: Anime, after: Anime, videos: seq<VideoItem>, total: int)
    requires videos != []
  {
    var url := EarliestOf(videos).value.thumbnailUrl;
    after.id == before.id && after.title == before.title
    && after.totalViewCount == total
    && after.weeklyViewIncrease == total - (if env.refuses(SelectViewData(before.id)) then 0 else before.totalViewCount)
    && after.lastUpdated == LatestPublished(videos)
    && after.thumbnailUrl ==
         (if before.thumbnailUrl.Some? || url == "" || !env.isRequestUri(url) then before.thumbnailUrl else Some(url))
  }

  /** The anime updates after the episode loop, with the updates accepted, leave the row
      StatsWritten describes. */
  lemma StatsRow(env: Env, t: Tables, id: int, videos: seq<VideoItem>, total: int)
    requires id in t.animes && t.animes[id].id == id && videos != []
    requires forall s :: env.refuses(s) ==> s.UpsertEpisodeStatement? || s.SelectViewData?
    ensures var r := AnimeStatsWritten(env, t, id, total, LatestPublished(videos), EarliestOf(videos));
            id in r.animes && r.animeIds == t.animeIds && StatsWritten(env, t.animes[id], r.animes[id], videos, total)
  {
    assert !env.refuses(UpdateViewData(id, total, total - PreviousTotal(env, t, id)));
    assert !env.refuses(UpdateLastUpdated(id, LatestPublished(videos).value));
    assert !env.refuses(UpdateThumbnail(id, EarliestOf(videos).value.thumbnailUrl));
  }

  lemma VideoStageStats(env: Env, api: Api, t: Tables, playlistId: string, id: int, bound: nat)
    requires Consistent(t) && PagesEnd(api.videosPage, playlistId, "", bound)
    requires id in t.animes && Observed(api, playlistId, bound).Some?
    requires forall s :: env.refuses(s) ==> s.UpsertEpisodeStatement? || s.SelectViewData?
    ensures var (videos, counts) := Observed(api, playlistId, bound).value;
            var r := ReconcileVideos(env, api, t, playlistId, id, bound);
            id in r.animes && r.animeIds == t.animeIds
            && StatsWritten(env, t.animes[id], r.animes[id], videos, SumViews(videos, counts))
  {
    var (videos, counts) := Observed(api, playlistId, bound).value;
    var t1 := EpisodesWritten(env, t, playlistId, videos, counts);
    assert t1.animes == t.animes;
    StatsRow(env, t1, id, videos, SumViews(videos, counts));
  }

  /** With the lookup and the anime upsert accepted, findOrCreateAnime yields an id. */
  lemma FindOrCreateSucceeds(env: Env, t: Tables, title: string, synopsis: string)
    requires Consistent(t)
    requires !env.refuses(SelectAnimeByTitle(title))
    requires !env.refuses(UpsertAnimeStatement(title, Some(synopsis), None, None))
    ensures FindOrCreateAnimeStep(env, t, title, synopsis).result.Success?
  {
    if AnimeByTitle(t, title).None? {
      assert UpsertAnimeStep(env, t, NewAnime(title, synopsis)).result.Success?;
    }
  }

  /** When the anime stage yields an id and the playlist upsert is accepted, the first half of
      the playlist body yields that id. */
  lemma PlaylistStoredSucceeds(env: Env, t: Tables, p: PlaylistItem)
    requires Consistent(t)
    requires FindOrCreateAnimeStep(env, t, ExtractAnimeTitle(p.title), p.description).result.Success?
    requires !env.refuses(UpsertPlaylistStatement(
               PlaylistRow(p, FindOrCreateAnimeStep(env, t, ExtractAnimeTitle(p.title), p.description).result.value)))
    ensures PlaylistStored(env, t, p).result ==
              Some(FindOrCreateAnimeStep(env, t, ExtractAnimeTitle(p.title), p.description).result.value)
  {
  }

  /** With the lookup, the anime upsert and the playlist upsert accepted, the first half of
      the playlist body goes through. */
  lemma AnimeStageRow(env: Env, t: Tables, p: PlaylistItem)
    requires Consistent(t)
    requires forall s :: env.refuses(s) ==> s.UpsertEpisodeStatement? || s.SelectViewData?
    ensures PlaylistStored(env, t, p).result.Some?
  {
    var title := ExtractAnimeTitle(p.title);
    FindOrCreateSucceeds(env, t, title, p.description);
    var found := FindOrCreateAnimeStep(env, t, title, p.description);
    assert !env.refuses(UpsertPlaylistStatement(PlaylistRow(p, found.result.value)));
    PlaylistStoredSucceeds(env, t, p);
  }

  /** For a relevant playlist whose videos and statistics arrive, with every statement but the
      episode upserts and the view-data read accepted: its anime's total becomes the sum of
      the videos' view counts (a video counting even when its episode upsert was refused), the
      weekly increase is that total minus the previous one (unclamped; 0 stands for the
      previous total of a new anime or a refused read), last_updated is the latest publish
      time, and the thumbnail is the earliest video's only when the anime had none and the
      URL is a non-empty request URI. */
  lemma PlaylistViewTotals(env: Env, api: Api, t: Tables, p: PlaylistItem, bound: nat)
    requires Consistent(t) && PagesEnd(api.videosPage, p.id, "", bound)
    requires IsRelevantPlaylist(p.title) && Observed(api, p.id, bound).Some?
    requires forall s :: env.refuses(s) ==> s.UpsertEpisodeStatement? || s.SelectViewData?
    ensures var title := ExtractAnimeTitle(p.title);
            var before := AnimeByTitle(t, title);
            var r := ReconcilePlaylist(env, api, t, p, bound);
            var videos := Observed(api, p.id, bound).value.0;
            var total := SumViews(videos, Observed(api, p.id, bound).value.1);
            AnimeByTitle(r, title).Some?
            && (before.Some? ==> AnimeByTitle(r, title).value.id == before.value.id
                                 && StatsWritten(env, before.value, AnimeByTitle(r, title).value, videos, total))
            && (before.None? ==> StatsWritten(env, NewAnime(title, p.description).(id := AnimeByTitle(r, title).value.id),
                                              AnimeByTitle(r, title).value, videos, total))
  {
    var title := ExtractAnimeTitle(p.title);
    AnimeStageRow(env, t, p);
    var stored := PlaylistStored(env, t, p);
    var id := stored.result.value;
    VideoStageStats(env, api, stored.tables, p.id, id, bound);
    var r := ReconcileVideos(env, api, stored.tables, p.id, id, bound);
    assert ReconcilePlaylist(env, api, t, p, bound) == r;
    assert AnimeByTitle(r, title).value == r.animes[id];
  }

  /** The totals alone: the anime's total becomes the playlist's sum, and the weekly increase
      is measured against the total the anime had before the pass (0 for a new anime). */
  lemma PlaylistTotals(env: Env, api: Api, t: Tables, p: PlaylistItem, bound: nat)
    requires Consistent(t) && PagesEnd(api.videosPage, p.id, "", bound)
    requires IsRelevantPlaylist(p.title) && Observed(api, p.id, bound).Some?
    requires forall s :: env.refuses(s) ==> s.UpsertEpisodeStatement?
    ensures var title := ExtractAnimeTitle(p.title);
            var before := AnimeByTitle(t, title);
            var after := AnimeByTitle(ReconcilePlaylist(env, api, t, p, bound), title);
            var total := SumViews(Observed(api, p.id, bound).value.0, Observed(api, p.id, bound).value.1);
            after.Some? && after.value.totalViewCount == total
            && after.value.weeklyViewIncrease == total - (if before.Some? then before.value.totalViewCount else 0)
  {
    var title := ExtractAnimeTitle(p.title);
    var observed := Observed(api, p.id, bound).value;
    var videos := observed.0;
    var total := SumViews(videos, observed.1);
    PlaylistViewTotals(env, api, t, p, bound);
    var before := AnimeByTitle(t, title);
    var after := AnimeByTitle(ReconcilePlaylist(env, api, t, p, bound), title).value;
    var created := NewAnime(title, p.description).(id := after.id);
    StatsTotals(env, before, created, after, videos, total);
  }

  /** The totals StatsWritten fixes, with the view-data read accepted. */
  lemma StatsTotals(env: Env, before: Option<Anime>, created: Anime, after: Anime, videos: seq<VideoItem>, total: int)
    requires videos != [] && created.totalViewCount == 0
    requires before.Some? ==> StatsWritten(env, before.value, after, videos, total)
    requires before.None? ==> StatsWritten(env, created, after, videos, total)
    requires forall s :: env.refuses(s) ==> s.UpsertEpisodeStatement?
    ensures after.totalViewCount == total
    ensures after.weeklyViewIncrease == total - (if before.Some? then before.value.totalViewCount else 0)
  {
    if before.Some? {
      assert !env.refuses(SelectViewData(before.value.id));
    } else {
      assert !env.refuses(SelectViewData(created.id));
    }
  }

  /** Two playlists resolving to the same anime do not add up: after both, the anime holds
      the second playlist's total, and its weekly increase is measured against the first's. */
  lemma PlaylistsOfOneAnimeOverwrite(env: Env, api: Api, t: Tables, p: PlaylistItem, q: PlaylistItem, bound: nat)
    requires Consistent(t) && PagesEnd(api.videosPage, p.id, "", bound) && PagesEnd(api.videosPage, q.id, "", bound)
    requires IsRelevantPlaylist(p.title) && IsRelevantPlaylist(q.title)
    requires ExtractAnimeTitle(p.title) == ExtractAnimeTitle(q.title)
    requires Observed(api, p.id, bound).Some? && Observed(api, q.id, bound).Some?
    requires forall s :: env.refuses(s) ==> s.UpsertEpisodeStatement?
    ensures var t2 := ReconcilePlaylist(env, api, ReconcilePlaylist(env, api, t, p, bound), q, bound);
            var fromP := SumViews(Observed(api, p.id, bound).value.0, Observed(api, p.id, bound).value.1);
            var fromQ := SumViews(Observed(api, q.id, bound).value.0, Observed(api, q.id, bound).value.1);
            AnimeByTitle(t2, ExtractAnimeTitle(q.title)).Some?
            && AnimeByTitle(t2, ExtractAnimeTitle(q.title)).value.totalViewCount == fromQ
            && AnimeByTitle(t2, ExtractAnimeTitle(q.title)).value.weeklyViewIncrease == fromQ - fromP
  {
    var t1 := ReconcilePlaylist(env, api, t, p, bound);
    PlaylistTotals(env, api, t, p, bound);
    PlaylistTotals(env, api, t1, q, bound);
  }

  /** A second pass over the same playlist with the same provider data, all anime writes
      accepted, leaves the same total and reports a weekly increase of 0. */
  lemma SecondPassWeeklyZero(env: Env, api: Api, t: Tables, p: PlaylistItem, bound: nat)
    requires Consistent(t) && PagesEnd(api.videosPage, p.id, "", bound)
    requires IsRelevantPlaylist(p.title) && Observed(api, p.id, bound).Some?
    requires forall s :: env.refuses(s) ==> s.UpsertEpisodeStatement?
    ensures var title := ExtractAnimeTitle(p.title);
            var t1 := ReconcilePlaylist(env, api, t, p, bound);
            var t2 := ReconcilePlaylist(env, api, t1, p, bound);
            AnimeByTitle(t1, title).Some? && AnimeByTitle(t2, title).Some?
            && AnimeByTitle(t2, title).value.totalViewCount == AnimeByTitle(t1, title).value.totalViewCount
            && AnimeByTitle(t2, title).value.weeklyViewIncrease == 0
  {
    PlaylistTotals(env, api, t, p, bound);
    PlaylistsOfOneAnimeOverwrite(env, api, t, p, p, bound);
  }
}
