/** getRatingsFromResponseString: the average rating and the number of ratings cut
    out of a rateyourmusic.com release page by splitting on marker strings. The Go
    function indexes and slices without checking lengths; each index or slice that
    can fall outside its bounds is a run-time panic, modelled as the result
    RangePanic. */
module Extractor {
  import opened GoStrings

  const AVG_RATING: string := "avg_rating"
  const NUM_RATINGS: string := "num_ratings"
  const SPAN_CLOSE: string := "</span>"
  const SPAN_OPEN: string := "<span >"

  /** What the Go function returns, or the panic it stops with. */
  datatype Extraction = Ratings(avgRating: string, numRatings: string) | RangePanic

  /** The text the average rating is read from. */
  function AvgSegment(html: string): string
    requires Contains(html, AVG_RATING)
  {
    Field(html, AVG_RATING, SPAN_CLOSE)
  }

  /** The text the number of ratings is read from. */
  function NumTag(html: string): string
    requires Contains(html, NUM_RATINGS)
  {
    Field(html, NUM_RATINGS, SPAN_CLOSE)
  }

  /** Text with no white space at either end. */
  predicate Trimmed(s: string)
  {
    s == [] || (s[0] !in ASCII_SPACE && s[|s| - 1] !in ASCII_SPACE)
  }

  /** getRatingsFromResponseString. A page without the average-rating marker yields
      two empty strings. With the marker, the Go code panics exactly when the text
      after the marker is shorter than the three characters it skips, when the
      number-of-ratings marker is missing, or when the number-of-ratings field
      holds no `<span >` tag; otherwise it returns two trimmed strings, and a
      non-empty average rating implies both markers were on the page. */
  function GetRatings(html: string): (r: Extraction)
    ensures !Contains(html, AVG_RATING) ==> r == Ratings("", "")
    ensures r == RangePanic <==> (Contains(html, AVG_RATING)
      && (|AvgSegment(html)| < 3 || !Contains(html, NUM_RATINGS) || !Contains(NumTag(html), SPAN_OPEN)))
    ensures r.Ratings? ==> Trimmed(r.avgRating) && Trimmed(r.numRatings)
    ensures r.Ratings? && r.avgRating != [] ==> Contains(html, AVG_RATING) && Contains(html, NUM_RATINGS)
  {
    if !Contains(html, AVG_RATING) then Ratings("", "")
    else
      var segment := AvgSegment(html);
      if |segment| < 3 then RangePanic
      else
        var avgRating := TrimSpace(segment[3..]);
        if |Split(html, NUM_RATINGS)| < 2 then RangePanic
        else
          var pieces := Split(NumTag(html), SPAN_OPEN);
          if |pieces| < 2 then RangePanic
          else Ratings(avgRating, TrimSpace(pieces[1]))
  }

  /** The average rating is read from the text that starts right after the first
      `avg_rating` marker, which ends at position `a`, and runs to the next
      `</span>`, the next `avg_rating` or the end of the page; the first three
      characters of that text are skipped and white space is trimmed. */
  lemma AvgRatingLocated(html: string, a: int, segment: string)
    requires Contains(html, AVG_RATING)
    requires a == Index(html, AVG_RATING) + |AVG_RATING| && segment == AvgSegment(html)
    ensures a + |segment| <= |html| && segment == html[a..a + |segment|]
    ensures !Contains(segment, SPAN_CLOSE) && !Contains(segment, AVG_RATING)
    ensures a + |segment| == |html| || OccursAt(html, SPAN_CLOSE, a + |segment|)
      || OccursAt(html, AVG_RATING, a + |segment|)
    ensures GetRatings(html).Ratings? ==>
      |segment| >= 3 && GetRatings(html).avgRating == TrimSpace(html[a + 3..a + |segment|])
  {
    FieldLocated(html, AVG_RATING, SPAN_CLOSE, a, segment);
    if GetRatings(html).Ratings? {
      assert segment[3..] == html[a + 3..a + |segment|];
    }
  }

  /** The number of ratings is read from the field `tag` after the first
      `num_ratings` marker, which ends at `n`: from the text `piece` right after the
      first `<span >` tag of the field (ending at `b` within it) up to the next
      `<span >` tag or the end of the field, trimmed of white space. */
  lemma NumRatingsLocated(html: string, n: int, tag: string, b: int, piece: string)
    requires Contains(html, NUM_RATINGS) && n == Index(html, NUM_RATINGS) + |NUM_RATINGS|
    requires tag == NumTag(html) && Contains(tag, SPAN_OPEN)
    requires b == Index(tag, SPAN_OPEN) + |SPAN_OPEN| && piece == Split(tag, SPAN_OPEN)[1]
    ensures n + b + |piece| <= |html| && piece == html[n + b..n + b + |piece|]
    ensures !Contains(piece, SPAN_OPEN) && !Contains(piece, SPAN_CLOSE)
    ensures b + |piece| == |tag| || OccursAt(html, SPAN_OPEN, n + b + |piece|)
  {
    FieldLocated(html, NUM_RATINGS, SPAN_CLOSE, n, tag);
    SecondPieceLocated(tag, SPAN_OPEN, b, piece);
    PieceOfFieldLocated(html, n, tag, b, piece);
  }

  /** A piece of the field `tag` at `n` in `html`, taken at `b` and ending at a
      `<span >` tag or at the end of the field, lies in `html` at `n + b`. */
  lemma PieceOfFieldLocated(html: string, n: int, tag: string, b: int, piece: string)
    requires 0 <= n && n + |tag| <= |html| && tag == html[n..n + |tag|] && !Contains(tag, SPAN_CLOSE)
    requires 0 <= b && b + |piece| <= |tag| && piece == tag[b..b + |piece|]
    requires b + |piece| == |tag| || OccursAt(tag, SPAN_OPEN, b + |piece|)
    ensures n + b + |piece| <= |html| && piece == html[n + b..n + b + |piece|]
    ensures !Contains(piece, SPAN_CLOSE)
    ensures b + |piece| == |tag| || OccursAt(html, SPAN_OPEN, n + b + |piece|)
  {
    SliceOfSlice(html, n, tag, b, piece);
    NoOccurrenceInPart(tag, b, SPAN_CLOSE, piece);
    if b + |piece| < |tag| {
      OccurrenceInPart(html, n, tag, SPAN_OPEN, b + |piece|);
    }
  }

  /** When a rating is found, the number of ratings is the trimmed text that
      NumRatingsLocated places in the page. */
  lemma NumRatingsRead(html: string, n: int, tag: string, b: int, piece: string)
    requires GetRatings(html).Ratings? && GetRatings(html).avgRating != []
    requires n == Index(html, NUM_RATINGS) + |NUM_RATINGS| && tag == NumTag(html)
    requires b == Index(tag, SPAN_OPEN) + |SPAN_OPEN| && piece == Split(tag, SPAN_OPEN)[1]
    ensures n + b + |piece| <= |html|
    ensures GetRatings(html).numRatings == TrimSpace(html[n + b..n + b + |piece|])
  {
    NumRatingsLocated(html, n, tag, b, piece);
  }

  /** Neither rating carries a leftover closing tag, the average rating carries no
      second `avg_rating` marker, and the number of ratings carries no opening tag. */
  lemma RatingsAreBareText(html: string)
    requires GetRatings(html).Ratings?
    ensures !Contains(GetRatings(html).avgRating, SPAN_CLOSE)
    ensures !Contains(GetRatings(html).avgRating, AVG_RATING)
    ensures !Contains(GetRatings(html).numRatings, SPAN_CLOSE)
    ensures !Contains(GetRatings(html).numRatings, SPAN_OPEN)
  {
    if Contains(html, AVG_RATING) {
      AvgRatingIsBare(html, AvgSegment(html), GetRatings(html).avgRating);
      var tag := NumTag(html);
      NumRatingsLocated(html, Index(html, NUM_RATINGS) + |NUM_RATINGS|, tag,
        Index(tag, SPAN_OPEN) + |SPAN_OPEN|, Split(tag, SPAN_OPEN)[1]);
      TrimSpaceKeepsAbsence(Split(tag, SPAN_OPEN)[1], SPAN_CLOSE, GetRatings(html).numRatings);
      TrimSpaceKeepsAbsence(Split(tag, SPAN_OPEN)[1], SPAN_OPEN, GetRatings(html).numRatings);
    }
  }

  /** The average rating, cut from its segment, holds neither marker the segment
      ends at. */
  lemma AvgRatingIsBare(html: string, segment: string, avgRating: string)
    requires Contains(html, AVG_RATING) && segment == AvgSegment(html) && |segment| >= 3
    requires avgRating == TrimSpace(segment[3..])
    ensures !Contains(avgRating, SPAN_CLOSE)
    ensures !Contains(avgRating, AVG_RATING)
  {
    FieldLocated(html, AVG_RATING, SPAN_CLOSE, Index(html, AVG_RATING) + |AVG_RATING|, segment);
    NoOccurrenceInSuffix(segment, 3, SPAN_CLOSE, segment[3..]);
    TrimSpaceKeepsAbsence(segment[3..], SPAN_CLOSE, avgRating);
    NoOccurrenceInSuffix(segment, 3, AVG_RATING, segment[3..]);
    TrimSpaceKeepsAbsence(segment[3..], AVG_RATING, avgRating);
  }
}
