/** The video-feed client (internal/youtube/client.go). HTTP, URL building and JSON decoding
    are replaced by an `Api` of total functions from request parameters to replies; what is
    modelled is the client's control logic: the reply checks, cursor pagination and the
    50-ID chunking of statistics requests. */
module Feed {
  import opened Wrappers

  datatype FeedError = TransportFailed | NonOkStatus(status: int) | DecodeFailed

  /** One HTTP exchange: a transport failure, or a status and a body that decoded (Some) or not. */
  datatype Reply<T> = TransportError | Reply(status: int, body: Option<T>)

  /** One page of a paginated listing. */
  datatype Page<T> = Page(nextPageToken: string, items: seq<T>)

  datatype PlaylistItem = PlaylistItem(id: string, title: string, description: string, channelId: string)
  datatype VideoItem = VideoItem(videoId: string, title: string, publishedAt: int, highThumbnailUrl: string)
  /** A video's statistics; the provider reports the view count as a decimal string. */
  datatype VideoDetailItem = VideoDetailItem(id: string, viewCount: string)
  datatype ChannelItem = ChannelItem(defaultThumbnailUrl: string)

  /** The provider: playlists of a channel and videos of a playlist by (resource id, page
      token), statistics by a chunk of video ids, channel details by channel id. */
  datatype Api = Api(
    playlistsPage: (string, string) -> Reply<Page<PlaylistItem>>,
    videosPage: (string, string) -> Reply<Page<VideoItem>>,
    videoStatistics: seq<string> -> Reply<seq<VideoDetailItem>>,
    channelDetails: string -> Reply<seq<ChannelItem>>)

  const StatusOK: int := 200
  const ChunkSize: nat := 50

  /** The checks after every request: transport error, then a status other than 200, then
      a body that does not decode; only a decoded 200 reply yields its body. */
  function Receive<T>(reply: Reply<T>): (r: Result<T, FeedError>)
    ensures r.Success? <==> reply.Reply? && reply.status == StatusOK && reply.body.Some?
    ensures r.Success? ==> r.value == reply.body.value
    ensures reply.TransportError? ==> r == Failure(TransportFailed)
    ensures reply.Reply? && reply.status != StatusOK ==> r == Failure(NonOkStatus(reply.status))
  {
    match reply
    case TransportError => Failure(TransportFailed)
    case Reply(status, body) =>
      if status != StatusOK then Failure(NonOkStatus(status))
      else if body.None? then Failure(DecodeFailed)
      else Success(body.value)
  }

  function Prepend<T>(items: seq<T>, r: Result<seq<T>, FeedError>): Result<seq<T>, FeedError> {
    match r
    case Success(rest) => Success(items + rest)
    case Failure(e) => Failure(e)
  }

  lemma PrependNothing<T>(r: Result<seq<T>, FeedError>)
    ensures Prepend([], r) == r
  {
    if r.Success? {
      assert [] + r.value == r.value;
    }
  }

  // ================================================================ pagination

  /** The chain of page tokens that starts at `token` ends (with an empty token or a failed
      request) within `bound` requests. The client relies on the provider for this: it loops
      until the token is empty. */
  ghost predicate PagesEnd<T>(fetch: (string, string) -> Reply<Page<T>>, resource: string, token: string, bound: nat)
    decreases bound
  {
    bound > 0 &&
    match Receive(fetch(resource, token))
    case Failure(_) => true
    case Success(page) => page.nextPageToken == "" || PagesEnd(fetch, resource, page.nextPageToken, bound - 1)
  }

  /** What paging from `token` on returns: every page's items in order, or the first error. */
  ghost function Collect<T>(fetch: (string, string) -> Reply<Page<T>>, resource: string, token: string, bound: nat): Result<seq<T>, FeedError>
    requires PagesEnd(fetch, resource, token, bound)
    decreases bound
  {
    match Receive(fetch(resource, token))
    case Failure(e) => Failure(e)
    case Success(page) =>
      if page.nextPageToken == "" then Success(page.items)
      else Prepend(page.items, Collect(fetch, resource, page.nextPageToken, bound - 1))
  }

  /** The loop shared by GetPlaylistsForChannel and GetVideosForPlaylist: request with an
      empty token, append the page, continue with its NextPageToken until that is empty. */
  method Paginate<T>(fetch: (string, string) -> Reply<Page<T>>, resource: string, ghost bound: nat)
    returns (r: Result<seq<T>, FeedError>)
    requires PagesEnd(fetch, resource, "", bound)
    ensures r == Collect(fetch, resource, "", bound)
  {
    var all: seq<T> := [];
    var pageToken := "";
    ghost var left := bound;
    PrependNothing(Collect(fetch, resource, "", bound));
    while true
      invariant PagesEnd(fetch, resource, pageToken, left)
      invariant Collect(fetch, resource, "", bound) == Prepend(all, Collect(fetch, resource, pageToken, left))
      decreases left
    {
      var response := Receive(fetch(resource, pageToken));
      if response.Failure? {
        return Failure(response.error);
      }
      var page := response.value;
      ghost var before := all;
      all := all + page.items;
      if page.nextPageToken == "" {
        return Success(all);
      }
      match Collect(fetch, resource, page.nextPageToken, left - 1) {
        case Success(rest) => assert before + (page.items + rest) == all + rest;
        case Failure(_) =>
      }
      pageToken := page.nextPageToken;
      left := left - 1;
    }
  }

  method GetPlaylistsForChannel(api: Api, channelId: string, ghost bound: nat)
    returns (r: Result<seq<PlaylistItem>, FeedError>)
    requires PagesEnd(api.playlistsPage, channelId, "", bound)
    ensures r == Collect(api.playlistsPage, channelId, "", bound)
  {
    r := Paginate(api.playlistsPage, channelId, bound);
  }

  method GetVideosForPlaylist(api: Api, playlistId: string, ghost bound: nat)
    returns (r: Result<seq<VideoItem>, FeedError>)
    requires PagesEnd(api.videosPage, playlistId, "", bound)
    ensures r == Collect(api.videosPage, playlistId, "", bound)
  {
    r := Paginate(api.videosPage, playlistId, bound);
  }

  // ---------------------------------------------------------------- pagination, declaratively

  function Flatten<T>(xss: seq<seq<T>>): seq<T> {
    if xss == [] then [] else xss[0] + Flatten(xss[1..])
  }

  function Items<T>(pages: seq<Page<T>>): seq<seq<T>> {
    seq(|pages|, i requires 0 <= i < |pages| => pages[i].items)
  }

  /** `pages` is what the provider serves when asked with `token` and then with each page's
      NextPageToken in turn: every token but the last page's is non-empty. */
  ghost predicate ChainFrom<T>(fetch: (string, string) -> Reply<Page<T>>, resource: string, token: string, pages: seq<Page<T>>) {
    |pages| >= 1
    && Receive(fetch(resource, token)) == Success(pages[0])
    && (forall i :: 0 <= i < |pages| - 1 ==>
          pages[i].nextPageToken != "" && Receive(fetch(resource, pages[i].nextPageToken)) == Success(pages[i + 1]))
    && pages[|pages| - 1].nextPageToken == ""
  }

  /** The pages the provider serves from `token` on until one fails with `e`. */
  ghost predicate FailingChainFrom<T>(fetch: (string, string) -> Reply<Page<T>>, resource: string, token: string, pages: seq<Page<T>>, e: FeedError) {
    (forall i :: 0 <= i < |pages| ==> pages[i].nextPageToken != "")
    && (if pages == [] then Receive(fetch(resource, token)) == Failure(e)
        else Receive(fetch(resource, token)) == Success(pages[0])
             && (forall i :: 0 <= i < |pages| - 1 ==> Receive(fetch(resource, pages[i].nextPageToken)) == Success(pages[i + 1]))
             && Receive(fetch(resource, pages[|pages| - 1].nextPageToken)) == Failure(e))
  }

  /** Paging succeeds exactly along a chain of pages ending in an empty token, and returns
      the concatenation of their items in order. */
  lemma {:induction false} CollectFollowsChain<T>(fetch: (string, string) -> Reply<Page<T>>, resource: string, token: string, bound: nat, pages: seq<Page<T>>)
    requires PagesEnd(fetch, resource, token, bound)
    requires ChainFrom(fetch, resource, token, pages)
    ensures Collect(fetch, resource, token, bound) == Success(Flatten(Items(pages)))
    decreases bound
  {
    var page := pages[0];
    if page.nextPageToken != "" {
      assert |pages| > 1;
      var rest := pages[1..];
      assert ChainFrom(fetch, resource, page.nextPageToken, rest) by {
        forall i | 0 <= i < |rest| - 1
          ensures rest[i].nextPageToken != "" && Receive(fetch(resource, rest[i].nextPageToken)) == Success(rest[i + 1])
        {
          assert rest[i] == pages[i + 1] && rest[i + 1] == pages[i + 2];
        }
      }
      CollectFollowsChain(fetch, resource, page.nextPageToken, bound - 1, rest);
      assert Items(pages) == [page.items] + Items(rest);
    } else {
      assert pages[0].nextPageToken == "";
      assert |pages| == 1;
      assert Items(pages) == [page.items];
      assert Flatten([page.items]) == page.items + Flatten([]) == page.items + [];
      assert page.items + [] == page.items;
      assert Collect(fetch, resource, token, bound) == Success(page.items);
    }
  }

  /** Conversely, every successful paging result comes from such a chain. */
  lemma {:induction false} CollectSuccessHasChain<T>(fetch: (string, string) -> Reply<Page<T>>, resource: string, token: string, bound: nat)
    returns (pages: seq<Page<T>>)
    requires PagesEnd(fetch, resource, token, bound)
    requires Collect(fetch, resource, token, bound).Success?
    ensures ChainFrom(fetch, resource, token, pages)
    ensures Collect(fetch, resource, token, bound).value == Flatten(Items(pages))
    decreases bound
  {
    var page := Receive(fetch(resource, token)).value;
    if page.nextPageToken == "" {
      pages := [page];
      assert Items(pages) == [page.items];
      assert Flatten([page.items]) == page.items + Flatten([]) == page.items + [];
      assert page.items + [] == page.items;
    } else {
      var rest := CollectSuccessHasChain(fetch, resource, page.nextPageToken, bound - 1);
      pages := [page] + rest;
      assert pages[1..] == rest;
      assert Items(pages) == [page.items] + Items(rest);
      forall i | 0 <= i < |pages| - 1
        ensures pages[i].nextPageToken != "" && Receive(fetch(resource, pages[i].nextPageToken)) == Success(pages[i + 1])
      {
        if i > 0 { assert pages[i] == rest[i - 1] && pages[i + 1] == rest[i]; }
      }
    }
  }

  /** A request that fails anywhere along the chain makes the whole listing fail with its
      error; the items of the pages before it are dropped. */
  lemma {:induction false} CollectFailsAtFirstError<T>(fetch: (string, string) -> Reply<Page<T>>, resource: string, token: string, bound: nat, pages: seq<Page<T>>, e: FeedError)
    requires PagesEnd(fetch, resource, token, bound)
    requires FailingChainFrom(fetch, resource, token, pages, e)
    ensures Collect(fetch, resource, token, bound) == Failure(e)
    decreases bound
  {
    if pages != [] {
      var rest := pages[1..];
      assert FailingChainFrom(fetch, resource, pages[0].nextPageToken, rest, e) by {
        if rest != [] {
          forall i | 0 <= i < |rest| - 1
            ensures Receive(fetch(resource, rest[i].nextPageToken)) == Success(rest[i + 1])
          {
            assert rest[i] == pages[i + 1] && rest[i + 1] == pages[i + 2];
          }
        }
      }
      CollectFailsAtFirstError(fetch, resource, pages[0].nextPageToken, bound - 1, rest, e);
    }
  }

  // ================================================================ statistics in chunks

  function Min(a: int, b: int): int {
    if a < b then a else b
  }

  /** The chunks [i, min(i+50, n)), [i+50, ...), ... of ids from index i on. */
  function ChunksFrom(ids: seq<string>, i: nat): seq<seq<string>>
    decreases |ids| - i
  {
    if i >= |ids| then [] else [ids[i..Min(i + ChunkSize, |ids|)]] + ChunksFrom(ids, i + ChunkSize)
  }

  function Chunks(ids: seq<string>): seq<seq<string>> {
    ChunksFrom(ids, 0)
  }

  lemma {:induction false} ChunksFromFlatten(ids: seq<string>, i: nat)
    requires i <= |ids|
    ensures Flatten(ChunksFrom(ids, i)) == ids[i..]
    decreases |ids| - i
  {
    if i < |ids| {
      var end := Min(i + ChunkSize, |ids|);
      if end < |ids| {
        ChunksFromFlatten(ids, end);
        assert ids[i..] == ids[i..end] + ids[end..];
      } else {
        assert ChunksFrom(ids, i + ChunkSize) == [];
        assert ids[i..] == ids[i..end] + [];
      }
    }
  }

  lemma {:induction false} ChunksFromCount(ids: seq<string>, i: nat)
    requires i <= |ids|
    ensures |ChunksFrom(ids, i)| == (|ids| - i + ChunkSize - 1) / ChunkSize
    decreases |ids| - i
  {
    if i + ChunkSize <= |ids| {
      ChunksFromCount(ids, i + ChunkSize);
    }
  }

  lemma {:induction false} ChunksFromShape(ids: seq<string>, i: nat, k: nat)
    requires i <= |ids|
    requires k < |ChunksFrom(ids, i)|
    ensures i + k * ChunkSize < |ids|
    ensures ChunksFrom(ids, i)[k] == ids[i + k * ChunkSize..Min(i + k * ChunkSize + ChunkSize, |ids|)]
    ensures 1 <= |ChunksFrom(ids, i)[k]| <= ChunkSize
    decreases |ids| - i
  {
    if k > 0 {
      var rest := ChunksFrom(ids, i + ChunkSize);
      assert ChunksFrom(ids, i)[k] == rest[k - 1];
      ChunksFromShape(ids, i + ChunkSize, k - 1);
      assert i + ChunkSize + (k - 1) * ChunkSize == i + k * ChunkSize;
    }
  }

  /** The chunks of `ids`: together they give back `ids`, there are ceil(n/50) of them, and
      chunk k is ids[50k .. min(50k+50, n)], holding 1 to 50 ids. */
  lemma ChunksSpec(ids: seq<string>)
    ensures Flatten(Chunks(ids)) == ids
    ensures |Chunks(ids)| == (|ids| + ChunkSize - 1) / ChunkSize
    ensures forall k :: 0 <= k < |Chunks(ids)| ==>
              1 <= |Chunks(ids)[k]| <= ChunkSize
              && Chunks(ids)[k] == ids[k * ChunkSize..Min(k * ChunkSize + ChunkSize, |ids|)]
  {
    ChunksFromFlatten(ids, 0);
    ChunksFromCount(ids, 0);
    forall k | 0 <= k < |Chunks(ids)|
      ensures 1 <= |Chunks(ids)[k]| <= ChunkSize
              && Chunks(ids)[k] == ids[k * ChunkSize..Min(k * ChunkSize + ChunkSize, |ids|)]
    {
      ChunksFromShape(ids, 0, k);
    }
  }

  /** One request per chunk, in order: the concatenation of every reply's items, or the
      first failure. */
  ghost function FetchChunks(fetch: seq<string> -> Reply<seq<VideoDetailItem>>, chunks: seq<seq<string>>): Result<seq<VideoDetailItem>, FeedError> {
    if chunks == [] then Success([])
    else match Receive(fetch(chunks[0]))
      case Failure(e) => Failure(e)
      case Success(items) => Prepend(items, FetchChunks(fetch, chunks[1..]))
  }

  /** GetVideoDetails: statistics for the ids, fetched in chunks of at most 50. An empty id
      list yields an empty result whatever the provider would have answered. */
  method GetVideoDetails(api: Api, videoIds: seq<string>) returns (r: Result<seq<VideoDetailItem>, FeedError>)
    ensures r == FetchChunks(api.videoStatistics, Chunks(videoIds))
    ensures videoIds == [] ==> r == Success([])
  {
    if |videoIds| == 0 {
      return Success([]);
    }
    var all: seq<VideoDetailItem> := [];
    var i: nat := 0;
    PrependNothing(FetchChunks(api.videoStatistics, Chunks(videoIds)));
    while i < |videoIds|
      invariant FetchChunks(api.videoStatistics, Chunks(videoIds))
                == Prepend(all, FetchChunks(api.videoStatistics, ChunksFrom(videoIds, i)))
      decreases |videoIds| - i
    {
      var end := i + ChunkSize;
      if end > |videoIds| {
        end := |videoIds|;
      }
      var chunk := videoIds[i..end];
      assert ChunksFrom(videoIds, i) == [chunk] + ChunksFrom(videoIds, i + ChunkSize);
      var response := Receive(api.videoStatistics(chunk));
      if response.Failure? {
        return Failure(response.error);
      }
      ghost var before := all;
      all := all + response.value;
      match FetchChunks(api.videoStatistics, ChunksFrom(videoIds, i + ChunkSize)) {
        case Success(rest) => assert before + (response.value + rest) == all + rest;
        case Failure(_) =>
      }
      i := i + ChunkSize;
    }
    assert all + [] == all;
    r := Success(all);
  }

  // ================================================================ channel picture

  /** GetChannelProfilePicture: the first item's default thumbnail URL, "" when the reply
      lists no item, and the reply's error otherwise. */
  function GetChannelProfilePicture(api: Api, channelId: string): (r: Result<string, FeedError>)
    ensures Receive(api.channelDetails(channelId)).Failure? ==> r == Failure(Receive(api.channelDetails(channelId)).error)
    ensures Receive(api.channelDetails(channelId)).Success? ==>
      var items := Receive(api.channelDetails(channelId)).value;
      r == Success(if items == [] then "" else items[0].defaultThumbnailUrl)
  {
    match Receive(api.channelDetails(channelId))
    case Failure(e) => Failure(e)
    case Success(items) => if |items| > 0 then Success(items[0].defaultThumbnailUrl) else Success("")
  }
}
