/**
 * The older MovieStatsService, still used by the movie statistics view: the
 * same counts as the newer service, but the average is rounded without a
 * check for the no-review case, where Avg('stars') is None and rounding it
 * raises, so build_data fails.
 */
module LegacyMovieStats {
  import opened Wrappers
  import opened MovieStats

  /** Why build_data fails: round(None, 1) raises TypeError. */
  datatype StatsError = NoReviewsToAverage

  /** __get_average_stars: fails without reviews; a zero average is returned as 0; otherwise the mean. */
  function LegacyAverageStars(reviews: seq<Review>): (r: Result<real, StatsError>)
    ensures r.Success? <==> reviews != []
    ensures r.Success? ==> r.value == AverageStars(reviews)
  {
    if reviews == [] then Failure(NoReviewsToAverage)
    else if Mean(reviews) == 0.0 then Success(0.0)
    else Success(Mean(reviews))
  }

  /** build_data: the four keys, or the failure of the average. */
  function LegacyBuildData(s: Service, storedReviews: seq<Review>): (r: Result<StatsData, StatsError>)
    ensures r.Success? <==> storedReviews != []
    ensures r.Success? ==> r.value == BuildData(s, storedReviews)
  {
    match LegacyAverageStars(storedReviews)
    case Failure(e) => Failure(e)
    case Success(avg) => Success(StatsData(TotalMovies(s.queryset), MoviesByGenre(s.queryset), s.reviews, avg))
  }

  /** Without reviews build_data fails, whatever the queryset. */
  lemma LegacyFailsWithoutReviews(s: Service)
    ensures LegacyBuildData(s, []) == Failure(NoReviewsToAverage)
  {
  }

  /**
   * The two services differ only when there is no review: there the older one
   * fails and the newer one reports 0.0; with at least one review they build
   * the same data.
   */
  lemma ServicesAgreeWithReviews(s: Service, storedReviews: seq<Review>)
    ensures storedReviews != [] <==> LegacyBuildData(s, storedReviews).Success?
    ensures storedReviews != [] ==> LegacyBuildData(s, storedReviews).value == BuildData(s, storedReviews)
    ensures storedReviews == [] ==> BuildData(s, storedReviews).averageStars == 0.0
  {
  }

  /** The counts are those of the newer service: the queryset size, groups partitioning it, the review snapshot. */
  lemma LegacyCounts(queryset: seq<Movie>, atInit: seq<Review>, atBuild: seq<Review>)
    requires atBuild != []
    ensures var d := LegacyBuildData(NewService(queryset, atInit), atBuild).value;
            && d.totalMovies == |queryset|
            && SumCounts(d.moviesByGenre) == |queryset|
            && GroupNames(d.moviesByGenre) == GenreNames(queryset)
            && d.totalReviews == |atInit|
  {
    MoviesByGenreSpec(queryset);
  }

  /** A zero average is reported as 0, and with stars in [0, 5] the average lies in [0, 5]. */
  lemma LegacyAverageInRange(reviews: seq<Review>)
    requires reviews != [] && StarsInRange(reviews)
    ensures 0.0 <= LegacyAverageStars(reviews).value <= 5.0
    ensures SumStars(reviews) == 0 ==> LegacyAverageStars(reviews) == Success(0.0)
  {
    AverageInRange(reviews);
  }
}
