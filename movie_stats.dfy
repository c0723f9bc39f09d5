/**
 * MovieStatsService: the numbers behind the movie statistics endpoint, over
 * the movies of a queryset and the stored reviews. The review count is
 * taken once, when the service is built; the average is read from the
 * reviews present when the data is built.
 */
module MovieStats {

  /** A movie of the queryset: only its id and its genre's name matter here. */
  datatype Movie = Movie(id: nat, genreName: string)

  /** A stored review: the movie it is about and its stars. */
  datatype Review = Review(movieId: nat, stars: int)

  /** One row of values('genre__name').annotate(count=Count('id')). */
  datatype GenreCount = GenreCount(genreName: string, count: nat)

  /** The dictionary build_data returns: exactly these four keys. */
  datatype StatsData = StatsData(totalMovies: nat, moviesByGenre: seq<GenreCount>, totalReviews: nat, averageStars: real)

  /** The service after __init__: the queryset, and Review.objects.count() at that moment. */
  datatype Service = Service(queryset: seq<Movie>, reviews: nat)

  /** __init__: keeps the queryset and snapshots the number of stored reviews. */
  function NewService(queryset: seq<Movie>, storedReviews: seq<Review>): (s: Service)
    ensures s.queryset == queryset && s.reviews == |storedReviews|
  {
    Service(queryset, |storedReviews|)
  }

  // __get_total_movies and __get_movies_by_genre.

  /** __get_total_movies: queryset.count(). */
  function TotalMovies(queryset: seq<Movie>): nat
  {
    |queryset|
  }

  /** How many movies of the queryset have the given genre. */
  function CountGenre(queryset: seq<Movie>, name: string): nat
  {
    if queryset == [] then 0
    else CountGenre(queryset[..|queryset| - 1], name) + (if queryset[|queryset| - 1].genreName == name then 1 else 0)
  }

  /** The genre names that occur in the queryset. */
  function GenreNames(queryset: seq<Movie>): set<string>
  {
    if queryset == [] then {} else GenreNames(queryset[..|queryset| - 1]) + {queryset[|queryset| - 1].genreName}
  }

  /** The names of the groups. */
  function GroupNames(groups: seq<GenreCount>): set<string>
  {
    if groups == [] then {} else GroupNames(groups[..|groups| - 1]) + {groups[|groups| - 1].genreName}
  }

  function SumCounts(groups: seq<GenreCount>): nat
  {
    if groups == [] then 0 else SumCounts(groups[..|groups| - 1]) + groups[|groups| - 1].count
  }

  /** No two groups share a name. */
  predicate DistinctNames(groups: seq<GenreCount>)
  {
    forall i, j :: 0 <= i < j < |groups| ==> groups[i].genreName != groups[j].genreName
  }

  /** Counts one more movie of genre `name`: its group goes up by one, or a new group of one is added at the end. */
  function Bump(groups: seq<GenreCount>, name: string): seq<GenreCount>
  {
    if groups == [] then [GenreCount(name, 1)]
    else if groups[0].genreName == name then [GenreCount(name, groups[0].count + 1)] + groups[1..]
    else [groups[0]] + Bump(groups[1..], name)
  }

  /**
   * __get_movies_by_genre: one group per genre name with its number of
   * movies. The database leaves the order of the groups open; the model
   * lists them in the order of first appearance.
   */
  function MoviesByGenre(queryset: seq<Movie>): (groups: seq<GenreCount>)
    ensures SumCounts(groups) == |queryset|
    ensures GroupNames(groups) == GenreNames(queryset)
  {
    if queryset == [] then []
    else
      var prev := MoviesByGenre(queryset[..|queryset| - 1]);
      var name := queryset[|queryset| - 1].genreName;
      BumpSum(prev, name);
      BumpNames(prev, name);
      Bump(prev, name)
  }

  // __get_average_stars.

  function SumStars(reviews: seq<Review>): int
  {
    if reviews == [] then 0 else SumStars(reviews[..|reviews| - 1]) + reviews[|reviews| - 1].stars
  }

  /** Avg('stars'): the mean of the stars of the stored reviews, or None (here: no value) when there are none. */
  function Mean(reviews: seq<Review>): real
    requires reviews != []
  {
    SumStars(reviews) as real / |reviews| as real
  }

  /**
   * __get_average_stars: 0.0 when there is no review, and a zero average is
   * returned as 0; otherwise the mean of the stars.
   */
  function AverageStars(reviews: seq<Review>): (avg: real)
    ensures avg == 0.0 <==> reviews == [] || SumStars(reviews) == 0
    ensures StarsInRange(reviews) ==> 0.0 <= avg <= 5.0
  {
    if reviews == [] then 0.0
    else
      var m := Mean(reviews);
      assert StarsInRange(reviews) ==> 0.0 <= m <= 5.0 by {
        if StarsInRange(reviews) {
          SumStarsBounds(reviews);
          QuotientBounds(SumStars(reviews) as real, |reviews| as real);
        }
      }
      if m == 0.0 then 0.0 else m
  }

  /** build_data on the reviews stored at the time of the call. */
  function BuildData(s: Service, storedReviews: seq<Review>): (d: StatsData)
    ensures SumCounts(d.moviesByGenre) == d.totalMovies
    ensures GroupNames(d.moviesByGenre) == GenreNames(s.queryset)
  {
    StatsData(TotalMovies(s.queryset), MoviesByGenre(s.queryset), s.reviews, AverageStars(storedReviews))
  }

  /** Stars within the range the Review model enforces. */
  predicate StarsInRange(reviews: seq<Review>)
  {
    forall i :: 0 <= i < |reviews| ==> 0 <= reviews[i].stars <= 5
  }

  // Properties.

  /** Bump adds `name` to the names, and adds a group exactly when `name` was not there yet. */
  lemma {:induction false} BumpNames(groups: seq<GenreCount>, name: string)
    ensures GroupNames(Bump(groups, name)) == GroupNames(groups) + {name}
    ensures |Bump(groups, name)| == |groups| + (if name in GroupNames(groups) then 0 else 1)
  {
    if groups != [] {
      var b := Bump(groups, name);
      BumpNames(groups[1..], name);
      GroupNamesCons(groups);
      GroupNamesCons(b);
      if groups[0].genreName == name {
        assert b[1..] == groups[1..];
      } else {
        assert b[1..] == Bump(groups[1..], name);
      }
    }
  }

  /** Bump keeps every group's name in place and puts a new group last. */
  lemma {:induction false} BumpKeepsNames(groups: seq<GenreCount>, name: string)
    ensures |Bump(groups, name)| >= |groups|
    ensures forall i :: 0 <= i < |groups| ==> Bump(groups, name)[i].genreName == groups[i].genreName
    ensures |Bump(groups, name)| > |groups| ==> Bump(groups, name)[|groups|] == GenreCount(name, 1)
  {
    if groups != [] && groups[0].genreName != name {
      BumpKeepsNames(groups[1..], name);
      var b := Bump(groups, name);
      assert b[1..] == Bump(groups[1..], name);
      forall i | 1 <= i < |groups| ensures b[i].genreName == groups[i].genreName {
        assert b[i] == b[1..][i - 1];
      }
    }
  }

  /** With distinct names, Bump raises the count of the group named `name` by one and leaves the others. */
  lemma {:induction false} BumpCounts(groups: seq<GenreCount>, name: string)
    requires DistinctNames(groups)
    ensures |Bump(groups, name)| >= |groups|
    ensures forall i :: 0 <= i < |groups| ==>
              Bump(groups, name)[i].count == groups[i].count + (if groups[i].genreName == name then 1 else 0)
  {
    if groups != [] {
      var tail := groups[1..];
      var b := Bump(groups, name);
      assert DistinctNames(tail) by {
        forall i, j | 0 <= i < j < |tail| ensures tail[i].genreName != tail[j].genreName {
          assert tail[i] == groups[i + 1] && tail[j] == groups[j + 1];
        }
      }
      BumpCounts(tail, name);
      if groups[0].genreName == name {
        forall i | 1 <= i < |groups| ensures b[i].count == groups[i].count + (if groups[i].genreName == name then 1 else 0) {
          assert groups[i].genreName != groups[0].genreName;
        }
      } else {
        assert b[1..] == Bump(tail, name);
        forall i | 1 <= i < |groups| ensures b[i].count == groups[i].count + (if groups[i].genreName == name then 1 else 0) {
          assert b[i] == b[1..][i - 1];
        }
      }
    }
  }

  /** Bump counts exactly one more movie. */
  lemma {:induction false} BumpSum(groups: seq<GenreCount>, name: string)
    ensures SumCounts(Bump(groups, name)) == SumCounts(groups) + 1
  {
    if groups != [] {
      var b := Bump(groups, name);
      BumpSum(groups[1..], name);
      SumCountsCons(groups);
      SumCountsCons(b);
      if groups[0].genreName == name {
        assert b[1..] == groups[1..];
      } else {
        assert b[1..] == Bump(groups[1..], name);
      }
    } else {
      assert Bump(groups, name)[..0] == [];
    }
  }

  /** Bump keeps the names distinct. */
  lemma BumpDistinct(groups: seq<GenreCount>, name: string)
    requires DistinctNames(groups)
    ensures DistinctNames(Bump(groups, name))
  {
    BumpNames(groups, name);
    BumpKeepsNames(groups, name);
    GroupNamesIndex(groups, name);
  }

  /** GroupNames read from the front. */
  lemma {:induction false} GroupNamesCons(groups: seq<GenreCount>)
    requires groups != []
    ensures GroupNames(groups) == {groups[0].genreName} + GroupNames(groups[1..])
    decreases |groups|
  {
    if |groups| > 1 {
      var init := groups[..|groups| - 1];
      GroupNamesCons(init);
      assert init[1..] == groups[1..][..|groups[1..]| - 1];
    } else {
      assert groups[..0] == [];
    }
  }

  /** SumCounts read from the front. */
  lemma {:induction false} SumCountsCons(groups: seq<GenreCount>)
    requires groups != []
    ensures SumCounts(groups) == groups[0].count + SumCounts(groups[1..])
    decreases |groups|
  {
    if |groups| > 1 {
      var init := groups[..|groups| - 1];
      SumCountsCons(init);
      assert init[1..] == groups[1..][..|groups[1..]| - 1];
    } else {
      assert groups[..0] == [];
    }
  }

  /** A name is a group name exactly when some group carries it. */
  lemma {:induction false} GroupNamesIndex(groups: seq<GenreCount>, name: string)
    ensures name in GroupNames(groups) <==> exists k :: 0 <= k < |groups| && groups[k].genreName == name
  {
    if groups != [] {
      var init := groups[..|groups| - 1];
      GroupNamesIndex(init, name);
      if name in GroupNames(init) {
        var k :| 0 <= k < |init| && init[k].genreName == name;
        assert groups[k].genreName == name;
      }
      if exists k :: 0 <= k < |groups| && groups[k].genreName == name {
        var k :| 0 <= k < |groups| && groups[k].genreName == name;
        if k < |init| {
          assert init[k].genreName == name;
        }
      }
    }
  }

  /**
   * movies_by_genre has one group per distinct genre name of the queryset,
   * each with the number of movies of that genre (at least one), and the
   * counts add up to total_movies.
   */
  lemma {:induction false} MoviesByGenreSpec(queryset: seq<Movie>)
    ensures var groups := MoviesByGenre(queryset);
            && DistinctNames(groups)
            && GroupNames(groups) == GenreNames(queryset)
            && SumCounts(groups) == TotalMovies(queryset)
            && (forall i :: 0 <= i < |groups| ==> groups[i].count == CountGenre(queryset, groups[i].genreName) >= 1)
  {
    if queryset != [] {
      var init := queryset[..|queryset| - 1];
      var name := queryset[|queryset| - 1].genreName;
      var prev := MoviesByGenre(init);
      MoviesByGenreSpec(init);
      BumpNames(prev, name);
      BumpKeepsNames(prev, name);
      BumpCounts(prev, name);
      BumpSum(prev, name);
      BumpDistinct(prev, name);
      var groups := MoviesByGenre(queryset);
      forall i | 0 <= i < |groups| ensures groups[i].count == CountGenre(queryset, groups[i].genreName) >= 1 {
        if i >= |prev| {
          assert groups[i] == GenreCount(name, 1);
          assert CountGenre(init, name) == 0 by {
            CountGenreZero(init, name);
          }
        }
      }
    }
  }

  /** A genre that does not occur has no movies. */
  lemma {:induction false} CountGenreZero(queryset: seq<Movie>, name: string)
    ensures name !in GenreNames(queryset) ==> CountGenre(queryset, name) == 0
  {
    if queryset != [] {
      CountGenreZero(queryset[..|queryset| - 1], name);
    }
  }

  /** With stars in [0, 5] the sum lies between 0 and 5 per review. */
  lemma {:induction false} SumStarsBounds(reviews: seq<Review>)
    requires StarsInRange(reviews)
    ensures 0 <= SumStars(reviews) <= 5 * |reviews|
  {
    if reviews != [] {
      SumStarsBounds(reviews[..|reviews| - 1]);
    }
  }

  /** Because the Review model keeps stars in [0, 5], the average lies in [0, 5]. */
  lemma AverageInRange(reviews: seq<Review>)
    requires StarsInRange(reviews)
    ensures 0.0 <= AverageStars(reviews) <= 5.0
  {
    if reviews != [] {
      SumStarsBounds(reviews);
    }
  }

  /** Without reviews the average is 0.0; with reviews it is their mean (a zero mean is 0). */
  lemma AverageOfReviews(reviews: seq<Review>)
    ensures reviews == [] ==> AverageStars(reviews) == 0.0
    ensures reviews != [] ==> AverageStars(reviews) == Mean(reviews)
  {
  }

  /** All reviews at equal stars average to those stars. */
  lemma {:induction false} UniformStars(reviews: seq<Review>, stars: int)
    requires reviews != [] && forall i :: 0 <= i < |reviews| ==> reviews[i].stars == stars
    ensures AverageStars(reviews) == stars as real
  {
    SumOfUniform(reviews, stars);
    var n := |reviews| as real;
    assert SumStars(reviews) as real == stars as real * n;
    assert (stars as real * n) / n == stars as real;
  }

  /** A sum of at most five per review divided by the number of reviews lies in [0, 5]. */
  lemma QuotientBounds(sum: real, n: real)
    requires n > 0.0 && 0.0 <= sum <= 5.0 * n
    ensures 0.0 <= sum / n <= 5.0
  {
    assert sum / n * n == sum;
  }

  lemma {:induction false} SumOfUniform(reviews: seq<Review>, stars: int)
    requires forall i :: 0 <= i < |reviews| ==> reviews[i].stars == stars
    ensures SumStars(reviews) == stars * |reviews|
  {
    if reviews != [] {
      SumOfUniform(reviews[..|reviews| - 1], stars);
    }
  }

  /**
   * total_reviews is the count taken when the service was built: it covers
   * every stored review (whatever movie it is about, in the queryset or not)
   * and ignores reviews stored afterwards, while the average is read again
   * when the data is built.
   */
  lemma ReviewCountIsSnapshot(queryset: seq<Movie>, atInit: seq<Review>, atBuild: seq<Review>)
    ensures BuildData(NewService(queryset, atInit), atBuild).totalReviews == |atInit|
    ensures BuildData(NewService(queryset, atInit), atBuild).averageStars == AverageStars(atBuild)
  {
  }

  /** build_data reports the size of the queryset and groups that partition it. */
  lemma BuildDataCounts(s: Service, storedReviews: seq<Review>)
    ensures var d := BuildData(s, storedReviews);
            && d.totalMovies == |s.queryset|
            && SumCounts(d.moviesByGenre) == d.totalMovies
            && GroupNames(d.moviesByGenre) == GenreNames(s.queryset)
  {
    MoviesByGenreSpec(s.queryset);
  }

  /** An empty queryset and no reviews: total 0, no groups, 0 reviews, average 0.0. */
  lemma EmptyStats()
    ensures BuildData(NewService([], []), []) == StatsData(0, [], 0, 0.0)
  {
  }
}
