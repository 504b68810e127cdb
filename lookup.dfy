/** The `/rating/:albumName` handler of the web server, without the server: the
    reply computed from what SMEMBERS returns for the album's key. SMEMBERS returns
    the members of a set as a list without repetition, in an order Redis chooses. */
module Lookup {
  import opened Redis
  import opened Crawl
  import opened Scraper

  /** The two answers of the handler. */
  datatype Reply =
    | NotInCache(albumName: string)
    | Rated(albumName: string, rating: string, reviews: string)

  /** The reply for `albumName` when SMEMBERS of its key returned `data`: fewer than
      two members reads as "not found", otherwise the first two are reported as the
      rating and the number of reviews. */
  function RatingReply(albumName: string, data: seq<string>): (r: Reply)
    ensures r.albumName == albumName
  {
    if |data| < 2 then NotInCache(albumName) else Rated(albumName, data[0], data[1])
  }

  /** `data` lists the set `s`: each member once, and nothing else. */
  predicate Lists(data: seq<string>, s: set<string>)
  {
    (forall i, j :: 0 <= i < j < |data| ==> data[i] != data[j]) && Elements(data) == s
  }

  /** A list without repetition has as many entries as the set it lists. */
  lemma {:induction false} ListedSize(data: seq<string>, s: set<string>)
    requires Lists(data, s)
    ensures |data| == |s|
    decreases |data|
  {
    if data != [] {
      var rest := data[1..];
      assert Elements(rest) == s - {data[0]} by {
        forall m ensures m in Elements(rest) <==> m in s - {data[0]} {
          if m in rest {
            var k :| 0 <= k < |rest| && rest[k] == m;
            assert data[k + 1] == m;
          }
          if m in data && m != data[0] {
            var k :| 0 <= k < |data| && data[k] == m;
            assert rest[k - 1] == m;
          }
        }
      }
      ListedSize(rest, s - {data[0]});
    }
  }

  /** The lookup of an album reports "not found" exactly when its key holds fewer
      than two members; otherwise it reports two different members of that set. */
  lemma LookupReadsStoredSet(db: Sets, albumName: string, data: seq<string>)
    requires Lists(data, Members(db, AlbumKey(albumName)))
    ensures var r := RatingReply(albumName, data);
      (r.NotInCache? <==> |Members(db, AlbumKey(albumName))| < 2)
      && (r.Rated? ==> r.rating != r.reviews
                       && r.rating in Members(db, AlbumKey(albumName))
                       && r.reviews in Members(db, AlbumKey(albumName)))
  {
    ListedSize(data, Members(db, AlbumKey(albumName)));
  }

  /** After publishRatings on an album the store had no data for, the lookup
      reports the album with the two published strings, in an order Redis
      chooses; but when the average rating and the number of ratings are the same
      string the set holds one member and the lookup reports "not found". */
  lemma LookupAfterPublish(db: Sets, albumName: string, avgRating: string, numRatings: string, data: seq<string>)
    requires Members(db, AlbumKey(albumName)) == {}
    requires Lists(data, Members(RatingsPublished(db, albumName, avgRating, numRatings), AlbumKey(albumName)))
    ensures var r := RatingReply(albumName, data);
      (r.Rated? <==> avgRating != numRatings)
      && (r.Rated? ==> {r.rating, r.reviews} == {avgRating, numRatings})
  {
    var db1 := RatingsPublished(db, albumName, avgRating, numRatings);
    RatingsPublishedAddsBoth(db, albumName, avgRating, numRatings);
    assert Members(db1, AlbumKey(albumName)) == {avgRating, numRatings};
    LookupReadsStoredSet(db1, albumName, data);
    if avgRating == numRatings {
      assert {avgRating, numRatings} == {avgRating};
    }
  }
}
