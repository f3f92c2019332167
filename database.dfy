/** The catalogue store (internal/core/database/postgres.go) over in-memory tables: one map per
    table keyed on its natural key, plus the UNIQUE(title) index of the anime table. Each SQL
    statement is a pure transition on `Tables`; the `Store` class applies them in place.
    Whether the database refuses a statement (a lost connection, a constraint) is a parameter
    of the store, `Env.refuses`, and url.ParseRequestURI is `Env.isRequestUri`. */
module Database {
  import opened Wrappers
  import opened Text

  // ================================================================ rows

  datatype Channel = Channel(id: string, name: string, url: string, profilePictureUrl: Option<string>)

  datatype Anime = Anime(
    id: int,
    title: string,
    synopsis: Option<string>,
    thumbnailUrl: Option<string>,
    releaseYear: Option<int>,
    lastUpdated: Option<int>,
    totalViewCount: int,
    weeklyViewIncrease: int)

  datatype Playlist = Playlist(
    id: string,
    channelId: string,
    animeId: Option<int>,
    title: string,
    description: Option<string>,
    language: string)

  datatype Episode = Episode(
    videoId: string,
    playlistId: string,
    title: string,
    episodeNumber: Option<int>,
    publishedAt: Option<int>,
    thumbnailUrl: Option<string>,
    viewCount: int)

  /** The statements the store issues, with the arguments each one passes. */
  datatype Statement =
    | UpsertChannelStatement(channelId: string, name: string, url: string)
    | SelectAnimeByTitle(title: string)
    | UpsertAnimeStatement(title: string, synopsis: Option<string>, thumbnailUrl: Option<string>, releaseYear: Option<int>)
    | UpsertPlaylistStatement(playlist: Playlist)
    | UpsertEpisodeStatement(videoId: string, playlistId: string, title: string, episodeNumber: Option<int>, publishedAt: Option<int>, thumbnailUrl: Option<string>)
    | SelectViewData(animeId: int)
    | UpdateViewData(animeId: int, total: int, weekly: int)
    | UpdateLastUpdated(animeId: int, timestamp: int)
    | UpdateThumbnail(animeId: int, url: string)

  datatype DbError = Refused | NoRows

  datatype Env = Env(refuses: Statement -> bool, isRequestUri: string -> bool)

  datatype Tables = Tables(
    channels: map<string, Channel>,
    animeIds: map<string, int>,
    animes: map<int, Anime>,
    nextAnimeId: int,
    playlists: map<string, Playlist>,
    episodes: map<string, Episode>)

  /** Keys agree with the rows' own ids, the title index and the anime table describe the same
      rows (so titles are unique), and the id sequence is past every id handed out. */
  ghost predicate Consistent(t: Tables) {
    ChannelsKeyed(t.channels) && PlaylistsKeyed(t.playlists) && EpisodesKeyed(t.episodes)
    && AnimesIndexed(t.animeIds, t.animes, t.nextAnimeId)
  }

  ghost predicate ChannelsKeyed(channels: map<string, Channel>) {
    forall k :: k in channels ==> channels[k].id == k
  }

  ghost predicate PlaylistsKeyed(playlists: map<string, Playlist>) {
    forall k :: k in playlists ==> playlists[k].id == k
  }

  ghost predicate EpisodesKeyed(episodes: map<string, Episode>) {
    forall k :: k in episodes ==> episodes[k].videoId == k
  }

  /** The title index and the anime table describe the same rows, and every id is below the
      next one the sequence hands out. */
  ghost predicate AnimesIndexed(animeIds: map<string, int>, animes: map<int, Anime>, nextAnimeId: int) {
    (forall title :: title in animeIds ==> animeIds[title] in animes && animes[animeIds[title]].title == title)
    && (forall id :: id in animes ==>
          animes[id].id == id && animes[id].title in animeIds && animeIds[animes[id].title] == id && id < nextAnimeId)
  }

  function EmptyTables(): (t: Tables)
    ensures Consistent(t)
    ensures t.channels == map[] && t.animes == map[] && t.playlists == map[] && t.episodes == map[]
  {
    Tables(map[], map[], map[], 1, map[], map[])
  }

  // ================================================================ channels

  /** INSERT INTO channels ... ON CONFLICT (channel_id) DO UPDATE SET name, url: the row keyed
      by the channel's id gets its name and url; profile_picture_url is not written (NULL for
      a new row, kept for an existing one); no other row changes. */
  function ChannelUpserted(t: Tables, c: Channel): (r: Tables)
    ensures r.channels.Keys == t.channels.Keys + {c.id}
    ensures r.channels[c.id].name == c.name && r.channels[c.id].url == c.url
    ensures r.channels[c.id].profilePictureUrl == (if c.id in t.channels then t.channels[c.id].profilePictureUrl else None)
    ensures forall k :: k in t.channels && k != c.id ==> r.channels[k] == t.channels[k]
    ensures r.animeIds == t.animeIds && r.animes == t.animes && r.nextAnimeId == t.nextAnimeId
    ensures r.playlists == t.playlists && r.episodes == t.episodes
    ensures Consistent(t) ==> Consistent(r)
  {
    var picture := if c.id in t.channels then t.channels[c.id].profilePictureUrl else None;
    t.(channels := t.channels[c.id := Channel(c.id, c.name, c.url, picture)])
  }

  // ================================================================ animes

  /** SELECT * FROM animes WHERE title = $1, with no row read as "none". */
  function AnimeByTitle(t: Tables, title: string): (r: Option<Anime>)
    requires Consistent(t)
    ensures r.Some? <==> exists id :: id in t.animes && t.animes[id].title == title
    ensures r.Some? ==> r.value.title == title && r.value.id in t.animes && t.animes[r.value.id] == r.value
  {
    if title in t.animeIds then
      var id := t.animeIds[title];
      assert id in t.animes && t.animes[id].title == title;
      Some(t.animes[id])
    else
      assert forall id :: id in t.animes ==> t.animes[id].title in t.animeIds;
      None
  }

  /** The row the upsert leaves for `title`: the given synopsis, thumbnail and release year;
      the other columns kept from the existing row or, for a new one, NULL and 0. */
  function UpsertedAnimeRow(t: Tables, id: int, title: string, synopsis: Option<string>, thumbnailUrl: Option<string>, releaseYear: Option<int>): Anime {
    if id in t.animes then
      t.animes[id].(synopsis := synopsis, thumbnailUrl := thumbnailUrl, releaseYear := releaseYear)
    else
      Anime(id, title, synopsis, thumbnailUrl, releaseYear, None, 0, 0)
  }

  /** INSERT INTO animes ... ON CONFLICT (title) DO UPDATE SET synopsis, thumbnail_url,
      release_year RETURNING anime_id: an existing title keeps its id and gets the three
      columns overwritten (NULLs included); a new title gets an id no row holds. */
  function AnimeUpserted(t: Tables, title: string, synopsis: Option<string>, thumbnailUrl: Option<string>, releaseYear: Option<int>): (r: (Tables, int))
    requires Consistent(t)
    ensures Consistent(r.0)
    ensures r.0.animeIds == t.animeIds[title := r.1]
    ensures title in t.animeIds ==> r.1 == t.animeIds[title] && r.0.animes.Keys == t.animes.Keys
    ensures title !in t.animeIds ==> r.1 !in t.animes && r.0.animes.Keys == t.animes.Keys + {r.1}
    ensures var row := r.0.animes[r.1];
      row.title == title && row.synopsis == synopsis && row.thumbnailUrl == thumbnailUrl && row.releaseYear == releaseYear
      && (if r.1 in t.animes
          then row.lastUpdated == t.animes[r.1].lastUpdated && row.totalViewCount == t.animes[r.1].totalViewCount
               && row.weeklyViewIncrease == t.animes[r.1].weeklyViewIncrease
          else row.lastUpdated == None && row.totalViewCount == 0 && row.weeklyViewIncrease == 0)
    ensures forall id :: id in t.animes && id != r.1 ==> r.0.animes[id] == t.animes[id]
    ensures r.0.channels == t.channels && r.0.playlists == t.playlists && r.0.episodes == t.episodes
  {
    var id := if title in t.animeIds then t.animeIds[title] else t.nextAnimeId;
    var row := UpsertedAnimeRow(t, id, title, synopsis, thumbnailUrl, releaseYear);
    var next := if title in t.animeIds then t.nextAnimeId else t.nextAnimeId + 1;
    var r := t.(animeIds := t.animeIds[title := id], animes := t.animes[id := row], nextAnimeId := next);
    IndexedAfterUpsert(t.animeIds, t.animes, t.nextAnimeId, title, row, next);
    (r, id)
  }

  /** Storing a row under the title's own id, or under the next id for a new title, keeps the
      title index and the anime table in agreement. */
  lemma IndexedAfterUpsert(animeIds: map<string, int>, animes: map<int, Anime>, nextId: int, title: string, row: Anime, next: int)
    requires AnimesIndexed(animeIds, animes, nextId) && row.title == title
    requires title in animeIds ==> row.id == animeIds[title] && next == nextId
    requires title !in animeIds ==> row.id == nextId && next == nextId + 1
    ensures AnimesIndexed(animeIds[title := row.id], animes[row.id := row], next)
  {
    var ids, rows := animeIds[title := row.id], animes[row.id := row];
    forall k | k in rows
      ensures rows[k].id == k && rows[k].title in ids && ids[rows[k].title] == k && k < next
    {
      if k != row.id {
        assert rows[k] == animes[k] && animes[k].title != title;
      }
    }
  }

  /** The stored total view count of an anime (its view-data read): the row's
      total_view_count, or no rows. */
  function StoredViewTotal(t: Tables, id: int): (r: Result<int, DbError>)
    ensures r.Success? <==> id in t.animes
    ensures r.Success? ==> r.value == t.animes[id].totalViewCount
    ensures r.Failure? ==> r.error == NoRows
  {
    if id in t.animes then Success(t.animes[id].totalViewCount) else Failure(NoRows)
  }

  /** Some column update of the anime row `id`: that row becomes `row`, and nothing else moves. */
  ghost predicate OnlyAnimeRowChanged(t: Tables, r: Tables, id: int) {
    r.animes.Keys == t.animes.Keys
    && (forall k :: k in t.animes && k != id ==> r.animes[k] == t.animes[k])
    && r.channels == t.channels && r.animeIds == t.animeIds && r.nextAnimeId == t.nextAnimeId
    && r.playlists == t.playlists && r.episodes == t.episodes
  }

  /** The view-data update: total_view_count and weekly_view_increase of the row; an unknown
      id changes nothing. */
  function ViewDataWritten(t: Tables, id: int, total: int, weekly: int): (r: Tables)
    ensures OnlyAnimeRowChanged(t, r, id)
    ensures id in t.animes ==> r.animes[id] == t.animes[id].(totalViewCount := total, weeklyViewIncrease := weekly)
    ensures id !in t.animes ==> r == t
    ensures Consistent(t) ==> Consistent(r)
  {
    if id in t.animes then t.(animes := t.animes[id := t.animes[id].(totalViewCount := total, weeklyViewIncrease := weekly)])
    else t
  }

  /** UPDATE animes SET last_updated = $1 WHERE anime_id = $2. */
  function LastUpdatedWritten(t: Tables, id: int, timestamp: int): (r: Tables)
    ensures OnlyAnimeRowChanged(t, r, id)
    ensures id in t.animes ==> r.animes[id] == t.animes[id].(lastUpdated := Some(timestamp))
    ensures id !in t.animes ==> r == t
    ensures Consistent(t) ==> Consistent(r)
  {
    if id in t.animes then t.(animes := t.animes[id := t.animes[id].(lastUpdated := Some(timestamp))])
    else t
  }

  /** UPDATE animes SET thumbnail_url = $1 WHERE anime_id = $2 AND thumbnail_url IS NULL:
      only a row without a thumbnail gets one. */
  function ThumbnailFilled(t: Tables, id: int, url: string): (r: Tables)
    ensures OnlyAnimeRowChanged(t, r, id)
    ensures id in t.animes && t.animes[id].thumbnailUrl.None? ==> r.animes[id] == t.animes[id].(thumbnailUrl := Some(url))
    ensures id !in t.animes || t.animes[id].thumbnailUrl.Some? ==> r == t
    ensures Consistent(t) ==> Consistent(r)
  {
    if id in t.animes && t.animes[id].thumbnailUrl.None? then
      t.(animes := t.animes[id := t.animes[id].(thumbnailUrl := Some(url))])
    else t
  }

  // ================================================================ playlists and episodes

  /** INSERT INTO playlists ... ON CONFLICT (playlist_id) DO UPDATE SET every column. */
  function PlaylistUpserted(t: Tables, p: Playlist): (r: Tables)
    ensures r.playlists.Keys == t.playlists.Keys + {p.id}
    ensures r.playlists[p.id] == p
    ensures forall k :: k in t.playlists && k != p.id ==> r.playlists[k] == t.playlists[k]
    ensures r.channels == t.channels && r.animeIds == t.animeIds && r.animes == t.animes
    ensures r.nextAnimeId == t.nextAnimeId && r.episodes == t.episodes
    ensures Consistent(t) ==> Consistent(r)
  {
    t.(playlists := t.playlists[p.id := p])
  }

  /** INSERT INTO episodes ... ON CONFLICT (video_id) DO UPDATE SET playlist_id, title,
      episode_number, published_at, thumbnail_url: view_count is not among the written
      columns, so it stays what it was (0 for a new row) whatever the episode carries. */
  function EpisodeUpserted(t: Tables, e: Episode): (r: Tables)
    ensures r.episodes.Keys == t.episodes.Keys + {e.videoId}
    ensures r.episodes[e.videoId] == e.(viewCount := if e.videoId in t.episodes then t.episodes[e.videoId].viewCount else 0)
    ensures forall k :: k in t.episodes && k != e.videoId ==> r.episodes[k] == t.episodes[k]
    ensures r.channels == t.channels && r.animeIds == t.animeIds && r.animes == t.animes
    ensures r.nextAnimeId == t.nextAnimeId && r.playlists == t.playlists
    ensures Consistent(t) ==> Consistent(r)
  {
    var views := if e.videoId in t.episodes then t.episodes[e.videoId].viewCount else 0;
    t.(episodes := t.episodes[e.videoId := e.(viewCount := views)])
  }

  // ================================================================ properties of the tables

  /** Upserting a channel a second time changes nothing. */
  lemma ChannelUpsertIdempotent(t: Tables, c: Channel)
    ensures ChannelUpserted(ChannelUpserted(t, c), c) == ChannelUpserted(t, c)
  {
    var t1 := ChannelUpserted(t, c);
    assert ChannelUpserted(t1, c).channels == t1.channels;
  }

  /** Upserting a playlist a second time changes nothing. */
  lemma PlaylistUpsertIdempotent(t: Tables, p: Playlist)
    ensures PlaylistUpserted(PlaylistUpserted(t, p), p) == PlaylistUpserted(t, p)
  {
    var t1 := PlaylistUpserted(t, p);
    assert PlaylistUpserted(t1, p).playlists == t1.playlists;
  }

  /** Upserting an episode a second time changes nothing. */
  lemma EpisodeUpsertIdempotent(t: Tables, e: Episode)
    ensures EpisodeUpserted(EpisodeUpserted(t, e), e) == EpisodeUpserted(t, e)
  {
    var t1 := EpisodeUpserted(t, e);
    assert EpisodeUpserted(t1, e).episodes == t1.episodes;
  }

  /** Upserting the same anime again returns the same id and leaves the same tables: titles
      stay unique, no second row appears. */
  lemma UpsertAnimeIdempotent(t: Tables, title: string, synopsis: Option<string>, thumbnailUrl: Option<string>, releaseYear: Option<int>)
    requires Consistent(t)
    ensures var (t1, id1) := AnimeUpserted(t, title, synopsis, thumbnailUrl, releaseYear);
            AnimeUpserted(t1, title, synopsis, thumbnailUrl, releaseYear) == (t1, id1)
  {
    var (t1, id1) := AnimeUpserted(t, title, synopsis, thumbnailUrl, releaseYear);
    var (t2, id2) := AnimeUpserted(t1, title, synopsis, thumbnailUrl, releaseYear);
    assert id2 == id1;
    assert t2.animes == t1.animes;
    assert t2.animeIds == t1.animeIds;
  }

  /** After the upsert, looking the title up finds the row under the returned id. */
  lemma FindAfterUpsert(t: Tables, title: string, synopsis: Option<string>, thumbnailUrl: Option<string>, releaseYear: Option<int>)
    requires Consistent(t)
    ensures var (t1, id) := AnimeUpserted(t, title, synopsis, thumbnailUrl, releaseYear);
            AnimeByTitle(t1, title).Some? && AnimeByTitle(t1, title).value.id == id
            && AnimeByTitle(t1, title).value.synopsis == synopsis
  {
  }

  /** First write wins: once a row has a thumbnail, no thumbnail update replaces it, and a
      second update after a first is a no-op. */
  lemma ThumbnailFirstWriteWins(t: Tables, id: int, first: string, second: string)
    ensures id in t.animes && t.animes[id].thumbnailUrl.Some? ==> ThumbnailFilled(t, id, second) == t
    ensures var t1 := ThumbnailFilled(t, id, first);
            ThumbnailFilled(t1, id, second) == t1
            && (id in t.animes ==> t1.animes[id].thumbnailUrl == Some(if t.animes[id].thumbnailUrl.Some? then t.animes[id].thumbnailUrl.value else first))
  {
  }

  /** The view-data read returns what the last view-data update wrote. */
  lemma ViewDataRoundTrip(t: Tables, id: int, total: int, weekly: int)
    requires id in t.animes
    ensures StoredViewTotal(ViewDataWritten(t, id, total, weekly), id) == Success(total)
    ensures ViewDataWritten(t, id, total, weekly).animes[id].weeklyViewIncrease == weekly
  {
  }

  // ================================================================ statement outcomes

  datatype Step<R> = Step(tables: Tables, result: R)

  function UpsertChannelStep(env: Env, t: Tables, c: Channel): Step<Outcome<DbError>> {
    if env.refuses(UpsertChannelStatement(c.id, c.name, c.url)) then Step(t, Fail(Refused))
    else Step(ChannelUpserted(t, c), Pass)
  }

  function FindAnimeByTitleStep(env: Env, t: Tables, title: string): Result<Option<Anime>, DbError>
    requires Consistent(t)
  {
    if env.refuses(SelectAnimeByTitle(title)) then Failure(Refused) else Success(AnimeByTitle(t, title))
  }

  function UpsertAnimeStep(env: Env, t: Tables, anime: Anime): Step<Result<int, DbError>>
    requires Consistent(t)
  {
    if env.refuses(UpsertAnimeStatement(anime.title, anime.synopsis, anime.thumbnailUrl, anime.releaseYear)) then
      Step(t, Failure(Refused))
    else
      var (t1, id) := AnimeUpserted(t, anime.title, anime.synopsis, anime.thumbnailUrl, anime.releaseYear);
      Step(t1, Success(id))
  }

  function UpsertPlaylistStep(env: Env, t: Tables, p: Playlist): Step<Outcome<DbError>> {
    if env.refuses(UpsertPlaylistStatement(p)) then Step(t, Fail(Refused)) else Step(PlaylistUpserted(t, p), Pass)
  }

  function UpsertEpisodeStep(env: Env, t: Tables, e: Episode): Step<Outcome<DbError>> {
    if env.refuses(UpsertEpisodeStatement(e.videoId, e.playlistId, e.title, e.episodeNumber, e.publishedAt, e.thumbnailUrl)) then
      Step(t, Fail(Refused))
    else Step(EpisodeUpserted(t, e), Pass)
  }

  function GetAnimeViewDataStep(env: Env, t: Tables, id: int): Result<int, DbError> {
    if env.refuses(SelectViewData(id)) then Failure(Refused) else StoredViewTotal(t, id)
  }

  function UpdateAnimeViewDataStep(env: Env, t: Tables, id: int, total: int, weekly: int): Step<Outcome<DbError>> {
    if env.refuses(UpdateViewData(id, total, weekly)) then Step(t, Fail(Refused))
    else Step(ViewDataWritten(t, id, total, weekly), Pass)
  }

  function UpdateAnimeLastUpdatedStep(env: Env, t: Tables, id: int, timestamp: int): Step<Outcome<DbError>> {
    if env.refuses(UpdateLastUpdated(id, timestamp)) then Step(t, Fail(Refused))
    else Step(LastUpdatedWritten(t, id, timestamp), Pass)
  }

  /** UpdateAnimeThumbnailURL: an empty URL and a URL that is not a request URI are skipped
      without error and without a statement; otherwise the guarded update runs. */
  function UpdateAnimeThumbnailUrlStep(env: Env, t: Tables, id: int, url: string): (r: Step<Outcome<DbError>>)
    ensures url == "" || !env.isRequestUri(url) ==> r == Step(t, Pass)
    ensures r.result.Fail? <==> url != "" && env.isRequestUri(url) && env.refuses(UpdateThumbnail(id, url))
    ensures r.result.Pass? ==> r.tables == if url == "" || !env.isRequestUri(url) then t else ThumbnailFilled(t, id, url)
    ensures r.result.Fail? ==> r.tables == t
    ensures id in t.animes && t.animes[id].thumbnailUrl.Some? ==> r.tables == t
  {
    if url == "" then Step(t, Pass)
    else if !env.isRequestUri(url) then Step(t, Pass)
    else if env.refuses(UpdateThumbnail(id, url)) then Step(t, Fail(Refused))
    else Step(ThumbnailFilled(t, id, url), Pass)
  }

  // ================================================================ the store

  class Store {
    const env: Env
    var channels: map<string, Channel>
    var animeIds: map<string, int>
    var animes: map<int, Anime>
    var nextAnimeId: int
    var playlists: map<string, Playlist>
    var episodes: map<string, Episode>

    function State(): Tables
      reads this
    {
      Tables(channels, animeIds, animes, nextAnimeId, playlists, episodes)
    }

    ghost predicate Valid()
      reads this
    {
      Consistent(State())
    }

    method Assign(t: Tables)
      modifies this
      ensures State() == t
    {
      channels, animeIds, animes, nextAnimeId := t.channels, t.animeIds, t.animes, t.nextAnimeId;
      playlists, episodes := t.playlists, t.episodes;
    }

    constructor(env: Env)
      ensures this.env == env && State() == EmptyTables() && Valid()
    {
      this.env := env;
      channels, animeIds, animes, nextAnimeId := map[], map[], map[], 1;
      playlists, episodes := map[], map[];
    }

    method UpsertChannel(c: Channel) returns (r: Outcome<DbError>)
      requires Valid()
      modifies this
      ensures Valid()
      ensures Step(State(), r) == UpsertChannelStep(env, old(State()), c)
    {
      if env.refuses(UpsertChannelStatement(c.id, c.name, c.url)) {
        return Fail(Refused);
      }
      var picture := if c.id in channels then channels[c.id].profilePictureUrl else None;
      channels := channels[c.id := Channel(c.id, c.name, c.url, picture)];
      r := Pass;
    }

    method FindAnimeByTitle(title: string) returns (r: Result<Option<Anime>, DbError>)
      requires Valid()
      ensures r == FindAnimeByTitleStep(env, State(), title)
    {
      if env.refuses(SelectAnimeByTitle(title)) {
        return Failure(Refused);
      }
      if title in animeIds {
        r := Success(Some(animes[animeIds[title]]));
      } else {
        r := Success(None);
      }
    }

    method UpsertAnime(anime: Anime) returns (r: Result<int, DbError>)
      requires Valid()
      modifies this
      ensures Valid()
      ensures Step(State(), r) == UpsertAnimeStep(env, old(State()), anime)
    {
      if env.refuses(UpsertAnimeStatement(anime.title, anime.synopsis, anime.thumbnailUrl, anime.releaseYear)) {
        return Failure(Refused);
      }
      var (t, id) := AnimeUpserted(State(), anime.title, anime.synopsis, anime.thumbnailUrl, anime.releaseYear);
      Assign(t);
      r := Success(id);
    }

    method UpsertPlaylist(p: Playlist) returns (r: Outcome<DbError>)
      requires Valid()
      modifies this
      ensures Valid()
      ensures Step(State(), r) == UpsertPlaylistStep(env, old(State()), p)
    {
      if env.refuses(UpsertPlaylistStatement(p)) {
        return Fail(Refused);
      }
      playlists := playlists[p.id := p];
      r := Pass;
    }

    method UpsertEpisode(e: Episode) returns (r: Outcome<DbError>)
      requires Valid()
      modifies this
      ensures Valid()
      ensures Step(State(), r) == UpsertEpisodeStep(env, old(State()), e)
    {
      if env.refuses(UpsertEpisodeStatement(e.videoId, e.playlistId, e.title, e.episodeNumber, e.publishedAt, e.thumbnailUrl)) {
        return Fail(Refused);
      }
      var views := if e.videoId in episodes then episodes[e.videoId].viewCount else 0;
      episodes := episodes[e.videoId := e.(viewCount := views)];
      r := Pass;
    }

    method GetAnimeViewData(id: int) returns (r: Result<int, DbError>)
      ensures r == GetAnimeViewDataStep(env, State(), id)
    {
      if env.refuses(SelectViewData(id)) {
        return Failure(Refused);
      }
      if id in animes {
        r := Success(animes[id].totalViewCount);
      } else {
        r := Failure(NoRows);
      }
    }

    method UpdateAnimeViewData(id: int, total: int, weekly: int) returns (r: Outcome<DbError>)
      requires Valid()
      modifies this
      ensures Valid()
      ensures Step(State(), r) == UpdateAnimeViewDataStep(env, old(State()), id, total, weekly)
    {
      if env.refuses(UpdateViewData(id, total, weekly)) {
        return Fail(Refused);
      }
      if id in animes {
        animes := animes[id := animes[id].(totalViewCount := total, weeklyViewIncrease := weekly)];
      }
      r := Pass;
    }

    method UpdateAnimeLastUpdated(id: int, timestamp: int) returns (r: Outcome<DbError>)
      requires Valid()
      modifies this
      ensures Valid()
      ensures Step(State(), r) == UpdateAnimeLastUpdatedStep(env, old(State()), id, timestamp)
    {
      if env.refuses(UpdateLastUpdated(id, timestamp)) {
        return Fail(Refused);
      }
      if id in animes {
        animes := animes[id := animes[id].(lastUpdated := Some(timestamp))];
      }
      r := Pass;
    }

    method UpdateAnimeThumbnailUrl(id: int, url: string) returns (r: Outcome<DbError>)
      requires Valid()
      modifies this
      ensures Valid()
      ensures Step(State(), r) == UpdateAnimeThumbnailUrlStep(env, old(State()), id, url)
    {
      if url == "" {
        return Pass;
      }
      if !env.isRequestUri(url) {
        return Pass;
      }
      if env.refuses(UpdateThumbnail(id, url)) {
        return Fail(Refused);
      }
      if id in animes && animes[id].thumbnailUrl.None? {
        animes := animes[id := animes[id].(thumbnailUrl := Some(url))];
      }
      r := Pass;
    }
  }

  // ================================================================ the GetAnimes query

  datatype GetAnimesParams = GetAnimesParams(search: string, sort: string, language: string)

  const BaseQuery: string := "SELECT * FROM animes"
  const ThumbnailCondition: string := "thumbnail_url IS NOT NULL"
  const DefaultOrder: string := " ORDER BY last_updated DESC NULLS LAST"

  function Placeholder(n: nat): string {
    "$" + DecimalString(n)
  }

  const LanguageFilter: string := "EXISTS (SELECT 1 FROM playlists p WHERE p.anime_id = animes.anime_id AND p.language = "
  const SearchFilter: string := "title ILIKE "

  function LanguageCondition(n: nat): string {
    LanguageFilter + Placeholder(n) + ")"
  }

  function SearchCondition(n: nat): string {
    SearchFilter + Placeholder(n)
  }

  /** The sort switch: four known keys, everything else the default. */
  function OrderBy(sort: string): string {
    match sort
    case "name_asc" => " ORDER BY title ASC"
    case "name_desc" => " ORDER BY title DESC"
    case "updated_asc" => " ORDER BY last_updated ASC NULLS LAST"
    case "updated_desc" => " ORDER BY last_updated DESC NULLS LAST"
    case _ => DefaultOrder
  }

  predicate FiltersLanguage(params: GetAnimesParams) {
    params.language == "id" || params.language == "en"
  }

  /** Any sort key other than the four listed (the empty one and "views_desc" among them)
      orders like "updated_desc"; the four known keys give four different clauses. */
  lemma OrderByFallsBack(sort: string)
    ensures sort !in {"name_asc", "name_desc", "updated_asc"} <==> OrderBy(sort) == OrderBy("updated_desc")
    ensures OrderBy("") == DefaultOrder && OrderBy("views_desc") == DefaultOrder
  {
  }

  /** The WHERE conditions and arguments of GetAnimes: the thumbnail condition first, then a
      language condition only for "id"/"en", then a search condition only for a non-empty
      search with its argument wrapped in "%...%", placeholders numbered $1..$k in order. */
  method GetAnimesQuery(params: GetAnimesParams) returns (conditions: seq<string>, args: seq<string>, query: string)
    ensures |conditions| == |args| + 1 && conditions[0] == ThumbnailCondition
    ensures |args| == (if FiltersLanguage(params) then 1 else 0) + (if params.search != "" then 1 else 0)
    ensures forall k :: 1 <= k < |conditions| ==>
              conditions[k] == LanguageCondition(k) || conditions[k] == SearchCondition(k)
    ensures FiltersLanguage(params) ==> conditions[1] == LanguageCondition(1) && args[0] == params.language
    ensures params.search != "" ==>
              conditions[|args|] == SearchCondition(|args|) && args[|args| - 1] == "%" + params.search + "%"
    ensures query == BaseQuery + (" WHERE " + Join(conditions, " AND ")) + OrderBy(params.sort)
  {
    conditions := [ThumbnailCondition];
    args := [];
    var argId: nat := 1;
    if params.language == "id" || params.language == "en" {
      conditions := conditions + [LanguageCondition(argId)];
      args := args + [params.language];
      argId := argId + 1;
    }
    if params.search != "" {
      conditions := conditions + [SearchCondition(argId)];
      args := args + ["%" + params.search + "%"];
      argId := argId + 1;
    }
    var whereClause := " WHERE " + Join(conditions, " AND ");
    var orderBy := OrderBy(params.sort);
    query := BaseQuery + whereClause + orderBy;
  }
}
