/** The earlier scrape loop, the `main` of rank-my-music.go, with its
    publishRatings and publishFoundAlbum. It has no cache check and no list of
    missing albums: every album is requested once and followed by a sleep of 60 to
    120 seconds. A found album is added to FOUND_ALBUMS and its ratings to its key,
    each SADD passing the extra member 0; an album without a rating writes nothing.
    The formatters and the extractor of that file are the same as in the current
    one and are modelled once, by Normalizer and Extractor. */
module LegacyScraper {
  import opened Library
  import opened Redis
  import opened Extractor
  import opened Crawl

  const MIN_WAIT: int := 60
  const MAX_WAIT: int := 120
  const REDIS_FOUND_ALBUMS_KEY: string := "FOUND_ALBUMS"

  /** The extra argument 0 of each SADD call, which go-redis sends as the string "0". */
  const ZERO: string := "0"

  /** The store after publishRatings: SADD of the average rating and 0, then SADD of
      the number of ratings and 0, both on the album's key. */
  function RatingsPublished(db: Sets, albumName: string, avgRating: string, numRatings: string): Sets
  {
    Added(Added(db, AlbumKey(albumName), {avgRating, ZERO}), AlbumKey(albumName), {numRatings, ZERO})
  }

  /** Together the two SADDs add the two ratings and "0" to the album's key. */
  lemma RatingsPublishedAddsThree(db: Sets, albumName: string, avgRating: string, numRatings: string)
    ensures RatingsPublished(db, albumName, avgRating, numRatings)
      == Added(db, AlbumKey(albumName), {avgRating, numRatings, ZERO})
  {
    AddedTwice(db, AlbumKey(albumName), {avgRating, ZERO}, {numRatings, ZERO});
    assert {avgRating, ZERO} + {numRatings, ZERO} == {avgRating, numRatings, ZERO};
  }

  /** publishRatings. */
  method PublishRatings(client: Store, albumName: string, avgRating: string, numRatings: string)
    modifies client
    ensures client.db == RatingsPublished(old(client.db), albumName, avgRating, numRatings)
  {
    assert Elements([avgRating, ZERO]) == {avgRating, ZERO};
    assert Elements([numRatings, ZERO]) == {numRatings, ZERO};
    client.SAdd(AlbumKey(albumName), [avgRating, ZERO]);
    client.SAdd(AlbumKey(albumName), [numRatings, ZERO]);
  }

  /** The store after publishFoundAlbum: SADD of the name and 0 on FOUND_ALBUMS. */
  function FoundPublished(db: Sets, albumName: string): Sets
  {
    Added(db, REDIS_FOUND_ALBUMS_KEY, {albumName, ZERO})
  }

  /** publishFoundAlbum. */
  method PublishFoundAlbum(client: Store, albumName: string)
    modifies client
    ensures client.db == FoundPublished(old(client.db), albumName)
  {
    assert Elements([albumName, ZERO]) == {albumName, ZERO};
    client.SAdd(REDIS_FOUND_ALBUMS_KEY, [albumName, ZERO]);
  }

  /** The writes after a request: with an average rating, the album is published as
      found and then its ratings; without one, nothing. */
  function Published(db: Sets, albumName: string, avgRating: string, numRatings: string): Sets
  {
    if avgRating != [] then RatingsPublished(FoundPublished(db, albumName), albumName, avgRating, numRatings)
    else db
  }

  /** One iteration of the loop for the album `a` it has just rewritten with its
      slugs: the request, the writes and the sleep. A panic in the extractor ends
      the run. */
  function Visit(st: Scrape, a: Album, read: string -> Extraction, intn: nat -> int): (next: Scrape)
    ensures st.panicked ==> next == st
    ensures !st.panicked ==> next.albums == st.albums + [a]
    ensures !st.panicked ==> |next.trace| > |st.trace| && next.trace[..|st.trace| + 1] == st.trace + [Fetch(Url(a))]
  {
    if st.panicked then st
    else
      var reached := st.(albums := st.albums + [a]);
      var url := Url(a);
      match read(url)
      case RangePanic => reached.(trace := st.trace + [Fetch(url)], panicked := true)
      case Ratings(avgRating, numRatings) =>
        reached.(db := Published(st.db, a.albumName, avgRating, numRatings),
                 trace := st.trace + [Fetch(url), Sleep(intn(st.fetches) + MIN_WAIT)],
                 fetches := st.fetches + 1)
  }

  /** The loop over the albums `slugs` (each already rewritten with its slugs),
      from the store `db`. */
  function Run(slugs: seq<Album>, db: Sets, read: string -> Extraction, intn: nat -> int): (s: Scrape)
    ensures |s.albums| <= |slugs| && s.albums == slugs[..|s.albums|]
    ensures !s.panicked ==> s.albums == slugs
    decreases |slugs|
  {
    if slugs == [] then Start(db)
    else
      var init := slugs[..|slugs| - 1];
      var prev := Run(init, db, read, intn);
      assert prev.albums == slugs[..|prev.albums|] by {
        assert init[..|prev.albums|] == slugs[..|prev.albums|];
      }
      assert !prev.panicked ==> prev.albums + [slugs[|slugs| - 1]] == slugs;
      Visit(prev, slugs[|slugs| - 1], read, intn)
  }

  /** Run on one more album is Visit on the run so far. */
  lemma RunSnoc(slugs: seq<Album>, i: int, db: Sets, read: string -> Extraction, intn: nat -> int)
    requires 0 <= i < |slugs|
    ensures Run(slugs[..i + 1], db, read, intn) == Visit(Run(slugs[..i], db, read, intn), slugs[i], read, intn)
  {
    assert slugs[..i + 1][..i] == slugs[..i];
  }

  /** A run that reached `prev` over the first `i` albums reaches what Visit makes
      of `prev` and the next album over the first `i + 1`. */
  lemma RunExtends(slugs: seq<Album>, i: int, db: Sets, read: string -> Extraction, intn: nat -> int,
                   prev: Scrape, next: Scrape)
    requires 0 <= i < |slugs| && Run(slugs[..i], db, read, intn) == prev
    requires Visit(prev, slugs[i], read, intn) == next
    ensures Run(slugs[..i + 1], db, read, intn) == next
  {
    RunSnoc(slugs, i, db, read, intn);
  }

  /** Once a run has panicked, the albums after it change nothing. */
  lemma {:induction false} RunAfterPanic(slugs: seq<Album>, n: int, db: Sets, read: string -> Extraction, intn: nat -> int)
    requires 0 <= n <= |slugs| && Run(slugs[..n], db, read, intn).panicked
    ensures Run(slugs, db, read, intn) == Run(slugs[..n], db, read, intn)
    decreases |slugs| - n
  {
    if n < |slugs| {
      RunSnoc(slugs, n, db, read, intn);
      RunAfterPanic(slugs, n + 1, db, read, intn);
    } else {
      assert slugs[..n] == slugs;
    }
  }

  /** A run over a prefix that panicked, or over all of `slugs`, is the run over
      `slugs`; an array holding the albums that run reached followed by the raw
      albums after them is that run's albums and the rest of `raws`. */
  lemma RunEnds(raws: seq<Album>, slugs: seq<Album>, n: int, db: Sets, read: string -> Extraction,
                intn: nat -> int, st: Scrape, entries: seq<Album>)
    requires 0 <= n <= |slugs| == |raws| == |entries| && Run(slugs[..n], db, read, intn) == st
    requires st.panicked || n == |slugs|
    requires entries[..n] == st.albums && entries[n..] == raws[n..]
    ensures Run(slugs, db, read, intn) == st
    ensures entries == st.albums + raws[|st.albums|..]
  {
    if st.panicked {
      RunAfterPanic(slugs, n, db, read, intn);
    } else {
      assert slugs[..n] == slugs;
    }
    assert entries == entries[..n] + entries[n..];
  }

  /** Visit of an album whose page makes the extractor panic. */
  lemma VisitPanics(st: Scrape, a: Album, read: string -> Extraction, intn: nat -> int, url: string, trace: seq<Event>)
    requires !st.panicked && url == Url(a) && read(url).RangePanic? && trace == st.trace + [Fetch(url)]
    ensures Visit(st, a, read, intn) == Scrape(st.db, trace, st.albums + [a], st.fetches, true)
  {
  }

  /** Visit of an album whose page the extractor reads: the writes `db` and the
      sleep, with one more request counted. */
  lemma VisitPublishes(st: Scrape, a: Album, read: string -> Extraction, intn: nat -> int,
                       url: string, ratings: Extraction, db: Sets, trace: seq<Event>)
    requires !st.panicked && url == Url(a) && ratings == read(url) && ratings.Ratings?
    requires db == Published(st.db, a.albumName, ratings.avgRating, ratings.numRatings)
    requires trace == st.trace + [Fetch(url), Sleep(intn(st.fetches) + MIN_WAIT)]
    ensures Visit(st, a, read, intn) == Scrape(db, trace, st.albums + [a], st.fetches + 1, false)
  {
  }

  /** Lines 80-96 of the loop: with an average rating, publishFoundAlbum then
      publishRatings; without one, no write. */
  method Publish(client: Store, albumName: string, avgRating: string, numRatings: string)
    modifies client
    ensures client.db == Published(old(client.db), albumName, avgRating, numRatings)
  {
    if avgRating != [] {
      PublishFoundAlbum(client, albumName);
      PublishRatings(client, albumName, avgRating, numRatings);
    }
  }

  /** Lines 55-101 of the loop for the rewritten album `a`: the request, the writes
      and the sleep, as Visit describes them for the run so far (store, effects
      `trace0`, albums `reached`, `fetches0` requests). */
  method FetchAlbum(client: Store, a: Album, fetch: string -> string, ghost read: string -> Extraction,
                    intn: nat -> int, trace0: seq<Event>, fetches0: nat, ghost reached: seq<Album>)
    returns (trace: seq<Event>, fetches: nat, panicked: bool)
    requires Reads(read, fetch)
    modifies client
    ensures Visit(Scrape(old(client.db), trace0, reached, fetches0, false), a, read, intn)
      == Scrape(client.db, trace, reached + [a], fetches, panicked)
  {
    ghost var st := Scrape(client.db, trace0, reached, fetches0, false);
    var url := Url(a);
    var ratings := ReadPage(fetch, read, url);
    trace := trace0 + [Fetch(url)];
    if ratings.RangePanic? {
      VisitPanics(st, a, read, intn, url, trace);
      return trace, fetches0, true;
    }
    Publish(client, a.albumName, ratings.avgRating, ratings.numRatings);
    var randomVal := intn(fetches0) + MIN_WAIT;
    trace := trace + [Sleep(randomVal)];
    assert trace == st.trace + [Fetch(url), Sleep(intn(st.fetches) + MIN_WAIT)];
    VisitPublishes(st, a, read, intn, url, ratings, client.db, trace);
    return trace, fetches0 + 1, false;
  }

  /** One iteration of the loop for entry `i`: the entry is overwritten in place
      with its rewritten form (lines 52-53) and handled as Visit says. */
  method LoopEntry(albums: array<Album>, i: int, client: Store, fetch: string -> string,
                   ghost read: string -> Extraction, intn: nat -> int, format: Album -> Album,
                   trace0: seq<Event>, fetches0: nat, ghost raws: seq<Album>, ghost db0: Sets)
    returns (trace: seq<Event>, fetches: nat, panicked: bool)
    requires Reads(read, fetch) && 0 <= i < albums.Length == |raws| && albums[i..] == raws[i..]
    requires Run(Rewritten(format, raws)[..i], db0, read, intn) == Scrape(client.db, trace0, albums[..i], fetches0, false)
    modifies albums, client
    ensures Run(Rewritten(format, raws)[..i + 1], db0, read, intn) == Scrape(client.db, trace, albums[..i + 1], fetches, panicked)
    ensures albums[i + 1..] == raws[i + 1..]
  {
    ghost var slugs := Rewritten(format, raws);
    ghost var prev := Scrape(client.db, trace0, albums[..i], fetches0, false);
    RewrittenAt(format, raws, i);
    albums[i] := format(albums[i]);
    assert albums[..i] == prev.albums && albums[i] == slugs[i] && albums[i + 1..] == raws[i + 1..];
    trace, fetches, panicked := FetchAlbum(client, albums[i], fetch, read, intn, trace0, fetches0, prev.albums);
    RunExtends(slugs, i, db0, read, intn, prev, Scrape(client.db, trace, albums[..i + 1], fetches, panicked));
  }

  /** The loop of main (lines 45-102) for a rewriting function `format`; a panic of
      the extractor stops it with the albums after the current one untouched. */
  method MainLoop(albums: array<Album>, client: Store, fetch: string -> string, ghost read: string -> Extraction,
                  intn: nat -> int, format: Album -> Album)
    returns (trace: seq<Event>, panicked: bool)
    requires Reads(read, fetch)
    modifies albums, client
    ensures var run := Run(Rewritten(format, old(albums[..])), old(client.db), read, intn);
      client.db == run.db && trace == run.trace && panicked == run.panicked
      && albums[..] == run.albums + old(albums[..])[|run.albums|..]
  {
    ghost var raws := albums[..];
    ghost var slugs := Rewritten(format, raws);
    ghost var db0 := client.db;
    trace := [];
    panicked := false;
    var fetches: nat := 0;
    for i := 0 to albums.Length
      invariant Run(slugs[..i], db0, read, intn) == Scrape(client.db, trace, albums[..i], fetches, false)
      invariant albums[i..] == raws[i..]
    {
      trace, fetches, panicked := LoopEntry(albums, i, client, fetch, read, intn, format, trace, fetches, raws, db0);
      if panicked {
        RunEnds(raws, slugs, i + 1, db0, read, intn, Scrape(client.db, trace, albums[..i + 1], fetches, true), albums[..]);
        return;
      }
    }
    RunEnds(raws, slugs, albums.Length, db0, read, intn, Scrape(client.db, trace, albums[..], fetches, false), albums[..]);
  }

  /** main after the library import: the loop with each entry's album name and
      artist name overwritten by their slugs. */
  method RankMyMusic(albums: array<Album>, client: Store, fetch: string -> string, intn: nat -> int)
    returns (trace: seq<Event>, panicked: bool)
    modifies albums, client
    ensures var run := Run(Rewritten(Formatted, old(albums[..])), old(client.db), Reader(fetch), intn);
      client.db == run.db && trace == run.trace && panicked == run.panicked
      && albums[..] == run.albums + old(albums[..])[|run.albums|..]
  {
    trace, panicked := MainLoop(albums, client, fetch, Reader(fetch), intn, Formatted);
  }
}
