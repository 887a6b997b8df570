/** The content-based movie recommender (`script.js`): a movie's genres
    become a binary vector over the 18 genre names of the MovieLens item
    file, two movies are compared by the cosine of their vectors, and the two
    movies most similar to the one the user liked are recommended.
    `Math.sqrt` is a parameter: any function returning the non-negative
    square root. */
module GenreRecommender {
  import opened Wrappers
  import opened Collections
  import opened Text
  import opened Vectors

  /** `genreNames`, in the order of the genre flags of a `u.item` line. */
  const GenreNames: seq<string> := [
    "Action", "Adventure", "Animation", "Children's", "Comedy",
    "Crime", "Documentary", "Drama", "Fantasy", "Film-Noir",
    "Horror", "Musical", "Mystery", "Romance", "Sci-Fi",
    "Thriller", "War", "Western"
  ]

  const RecommendationCount: nat := 2

  datatype Movie = Movie(id: int, title: string, genres: seq<string>)

  lemma GenreNamesDistinct()
    ensures |GenreNames| == 18
    ensures NoDuplicates(GenreNames)
  {
  }

  // ------------------------------------------------------------ genre vectors

  /** Entry `i` is 1 exactly when `genres` holds `names[i]`. */
  function FlagVector(names: seq<string>, genres: seq<string>): (v: seq<real>)
    ensures |v| == |names|
  {
    seq(|names|, i requires 0 <= i < |names| => if names[i] in genres then 1.0 else 0.0)
  }

  /** Entry `i` is 1 exactly when the movie has the genre `GenreNames[i]`. */
  function GenreVector(genres: seq<string>): (v: seq<real>)
    ensures |v| == |GenreNames|
  {
    FlagVector(GenreNames, genres)
  }

  /** `genresToVector`: a fresh array of zeros, and a 1 at the position
      `genreNames.indexOf` finds for each genre; genres not in the table are
      skipped. */
  method GenresToVector(genres: seq<string>) returns (vector: array<real>)
    ensures fresh(vector)
    ensures vector[..] == GenreVector(genres)
  {
    GenreNamesDistinct();
    vector := FlagArray(GenreNames, genres);
  }

  /** The loop of `genresToVector` over a table of distinct names. */
  method FlagArray(names: seq<string>, genres: seq<string>) returns (vector: array<real>)
    requires NoDuplicates(names)
    ensures fresh(vector)
    ensures vector[..] == FlagVector(names, genres)
  {
    vector := new real[|names|](_ => 0.0);
    assert vector[..] == FlagVector(names, []);
    var k := 0;
    while k < |genres|
      invariant 0 <= k <= |genres|
      invariant vector.Length == |names|
      invariant vector[..] == FlagVector(names, genres[..k])
    {
      var genre := genres[k];
      assert genres[..k + 1] == genres[..k] + [genre];
      FlagVectorSnoc(names, genres[..k], genre);
      if genre in names {
        var index := IndexOf(names, genre);
        vector[index] := 1.0;
      }
      k := k + 1;
    }
    assert genres[..k] == genres;
  }

  /** One more genre sets its own entry to 1 and leaves the others; a genre
      outside the table changes nothing. */
  lemma GenreVectorSnoc(genres: seq<string>, genre: string)
    ensures GenreVector(genres + [genre]) ==
      if genre in GenreNames then GenreVector(genres)[IndexOf(GenreNames, genre) := 1.0]
      else GenreVector(genres)
  {
    GenreNamesDistinct();
    FlagVectorSnoc(GenreNames, genres, genre);
  }

  lemma FlagVectorSnoc(names: seq<string>, genres: seq<string>, genre: string)
    requires NoDuplicates(names)
    ensures FlagVector(names, genres + [genre]) ==
      if genre in names then FlagVector(names, genres)[IndexOf(names, genre) := 1.0]
      else FlagVector(names, genres)
  {
    var before, after := FlagVector(names, genres), FlagVector(names, genres + [genre]);
    if genre in names {
      var index := IndexOf(names, genre);
      forall i | 0 <= i < |names| ensures after[i] == before[index := 1.0][i] {
        if i != index {
          assert names[i] != names[index];
        }
      }
    } else {
      forall i | 0 <= i < |names| ensures after[i] == before[i] {
        assert names[i] != genre;
      }
    }
  }

  /** Every entry of a genre vector is 0 or 1. */
  predicate Binary(v: seq<real>) {
    forall i :: 0 <= i < |v| ==> v[i] == 0.0 || v[i] == 1.0
  }

  /** For binary vectors, the dot product counts the shared ones, so it
      lies between 0 and either vector's number of ones. */
  lemma {:induction false} BinaryDotBounds(a: seq<real>, b: seq<real>)
    requires |a| == |b|
    requires Binary(a) && Binary(b)
    ensures 0.0 <= Dot(a, b) <= SumSquares(a)
    ensures Dot(a, b) <= SumSquares(b)
  {
    if a != [] {
      var n := |a| - 1;
      assert Binary(a[..n]) && Binary(b[..n]);
      BinaryDotBounds(a[..n], b[..n]);
      assert a[n] == 0.0 || a[n] == 1.0;
      assert b[n] == 0.0 || b[n] == 1.0;
    }
  }

  // ----------------------------------------------------------------- cosine

  /** `Math.sqrt` on the non-negative reals: 0 at 0, and otherwise the
      positive number whose square is the argument. */
  ghost predicate IsSqrt(sqrt: real -> real) {
    && sqrt(0.0) == 0.0
    && forall x :: 0.0 < x ==> 0.0 < sqrt(x) && sqrt(x) * sqrt(x) == x
  }

  /** The cosine similarity: 0 when either magnitude is 0, and otherwise the
      dot product divided by the product of the magnitudes. */
  function Cosine(a: seq<real>, b: seq<real>, sqrt: real -> real): real
    requires |a| == |b|
  {
    var magnitudeA, magnitudeB := sqrt(SumSquares(a)), sqrt(SumSquares(b));
    if magnitudeA == 0.0 || magnitudeB == 0.0 then 0.0
    else Dot(a, b) / (magnitudeA * magnitudeB)
  }

  /** `cosineSimilarity`: the dot product summed over the indices of `vecA`,
      the magnitudes from the sums of squares, and the zero guard. */
  method CosineSimilarity(vecA: seq<real>, vecB: seq<real>, sqrt: real -> real) returns (score: real)
    requires |vecA| == |vecB|
    ensures score == Cosine(vecA, vecB, sqrt)
  {
    var dotProduct := 0.0;
    var i := 0;
    while i < |vecA|
      invariant 0 <= i <= |vecA|
      invariant dotProduct == Dot(vecA[..i], vecB[..i])
    {
      assert vecA[..i + 1][..i] == vecA[..i];
      assert vecB[..i + 1][..i] == vecB[..i];
      dotProduct := dotProduct + vecA[i] * vecB[i];
      i := i + 1;
    }
    assert vecA[..i] == vecA && vecB[..i] == vecB;
    var magnitudeA := sqrt(SumSquares(vecA));
    var magnitudeB := sqrt(SumSquares(vecB));
    if magnitudeA == 0.0 || magnitudeB == 0.0 {
      return 0.0;
    }
    score := dotProduct / (magnitudeA * magnitudeB);
  }

  /** The guard fires exactly for a vector whose entries are all 0, and the
      similarity is then 0 whatever the other vector. */
  lemma CosineZeroMagnitude(a: seq<real>, b: seq<real>, sqrt: real -> real)
    requires |a| == |b|
    requires IsSqrt(sqrt)
    ensures sqrt(SumSquares(a)) == 0.0 <==> SumSquares(a) == 0.0
    ensures sqrt(SumSquares(b)) == 0.0 <==> SumSquares(b) == 0.0
    ensures SumSquares(a) == 0.0 || SumSquares(b) == 0.0 ==> Cosine(a, b, sqrt) == 0.0
  {
    SumSquaresNonNegative(a);
    SumSquaresNonNegative(b);
  }

  lemma CosineSymmetric(a: seq<real>, b: seq<real>, sqrt: real -> real)
    requires |a| == |b|
    ensures Cosine(a, b, sqrt) == Cosine(b, a, sqrt)
  {
    DotSymmetric(a, b);
  }

  /** A vector with a non-zero entry is fully similar to itself. */
  lemma CosineSelf(a: seq<real>, sqrt: real -> real)
    requires IsSqrt(sqrt)
    requires SumSquares(a) != 0.0
    ensures Cosine(a, a, sqrt) == 1.0
  {
    SumSquaresNonNegative(a);
    SumSquaresIsDot(a);
    var m := sqrt(SumSquares(a));
    assert m * m == SumSquares(a);
    SelfDivision(m * m);
  }

  lemma MultiplyBelow(x: real, y: real, z: real)
    requires 0.0 <= x && y <= z
    ensures x * y <= x * z
  {
  }

  lemma ProductBound(d: real, pa: real, pb: real)
    requires 0.0 <= d <= pa && d <= pb
    ensures d * d <= pa * pb
  {
    MultiplyBelow(d, d, pa);
    MultiplyBelow(pa, d, pb);
    assert d * pa == pa * d;
  }

  /** The arithmetic behind the bound: a shared count no larger than either
      vector's count, over the product of the two roots, is at most 1. */
  lemma RatioAtMostOne(d: real, pa: real, pb: real, ma: real, mb: real)
    requires 0.0 <= d <= pa && d <= pb
    requires 0.0 < ma && ma * ma == pa
    requires 0.0 < mb && mb * mb == pb
    ensures 0.0 <= d / (ma * mb) <= 1.0
  {
    var m := ma * mb;
    assert m > 0.0;
    assert m * m == pa * pb by {
      assert m * m == (ma * ma) * (mb * mb);
    }
    ProductBound(d, pa, pb);
    RootMonotone(d, m);
    DivideAtMostOne(d, m);
  }

  lemma RootMonotone(d: real, m: real)
    requires 0.0 <= d && 0.0 < m && d * d <= m * m
    ensures d <= m
  {
  }

  lemma DivideAtMostOne(d: real, m: real)
    requires 0.0 <= d <= m && 0.0 < m
    ensures 0.0 <= d / m <= 1.0
  {
  }

  /** Two binary vectors have a similarity between 0 and 1. */
  lemma BinaryCosineBounds(a: seq<real>, b: seq<real>, sqrt: real -> real)
    requires |a| == |b|
    requires Binary(a) && Binary(b)
    requires IsSqrt(sqrt)
    ensures 0.0 <= Cosine(a, b, sqrt) <= 1.0
  {
    BinaryDotBounds(a, b);
    SumSquaresNonNegative(a);
    SumSquaresNonNegative(b);
    var pa, pb := SumSquares(a), SumSquares(b);
    var ma, mb := sqrt(pa), sqrt(pb);
    if ma != 0.0 && mb != 0.0 {
      RatioAtMostOne(Dot(a, b), pa, pb, ma, mb);
      var c := Dot(a, b) / (ma * mb);
      assert 0.0 <= c <= 1.0;
      assert Cosine(a, b, sqrt) == c;
    }
  }

  /** Two genre vectors have a similarity between 0 and 1. */
  lemma GenreCosineBounds(genres1: seq<string>, genres2: seq<string>, sqrt: real -> real)
    requires IsSqrt(sqrt)
    ensures 0.0 <= Cosine(GenreVector(genres1), GenreVector(genres2), sqrt) <= 1.0
  {
    BinaryCosineBounds(GenreVector(genres1), GenreVector(genres2), sqrt);
  }

  // ------------------------------------------------------ getRecommendations

  /** `movies.find(movie => movie.id === id)`: the first movie with that id. */
  function FindMovie(movies: seq<Movie>, id: int): (r: Option<Movie>)
    ensures r.None? <==> forall m :: m in movies ==> m.id != id
    ensures r.Some? ==> r.value in movies && r.value.id == id
    ensures r.Some? ==> exists k :: (0 <= k < |movies| && movies[k] == r.value &&
      forall j :: 0 <= j < k ==> movies[j].id != id)
  {
    if movies == [] then None
    else if movies[0].id == id then Some(movies[0])
    else
      var r := FindMovie(movies[1..], id);
      if r.Some? then
        var k :| 0 <= k < |movies[1..]| && movies[1..][k] == r.value &&
          forall j :: 0 <= j < k ==> movies[1..][j].id != id;
        assert movies[k + 1] == r.value;
        r
      else
        assert forall m :: m in movies ==> m == movies[0] || m in movies[1..];
        r
  }

  /** A candidate with its `score`. */
  datatype ScoredMovie = ScoredMovie(movie: Movie, score: real)

  /** `candidateMovies.map(...)`: each candidate with its similarity to the
      liked movie's vector. */
  function ScoreMovies(candidates: seq<Movie>, liked: seq<real>, sqrt: real -> real): (r: seq<ScoredMovie>)
    requires |liked| == |GenreNames|
    ensures |r| == |candidates|
    ensures forall i :: 0 <= i < |r| ==>
      r[i] == ScoredMovie(candidates[i], Cosine(liked, GenreVector(candidates[i].genres), sqrt))
  {
    seq(|candidates|, i requires 0 <= i < |candidates| =>
      ScoredMovie(candidates[i], Cosine(liked, GenreVector(candidates[i].genres), sqrt)))
  }

  /** `(a, b) => b.score - a.score`: the higher score first. */
  predicate ScoreAtLeast(a: ScoredMovie, b: ScoredMovie) {
    a.score >= b.score
  }

  lemma ScoreAtLeastIsTotal(domain: set<ScoredMovie>)
    ensures TotalPreorderOn(ScoreAtLeast, domain)
  {
  }

  /** `movies.filter(movie => movie.id !== likedMovie.id)`. */
  function Candidates(movies: seq<Movie>, liked: Movie): seq<Movie> {
    Filter(movies, (m: Movie) => m.id != liked.id)
  }

  /** The chain from the liked movie to the two recommendations: drop the
      liked id, score, sort best first, keep two. */
  function Recommend(movies: seq<Movie>, liked: Movie, sqrt: real -> real): seq<ScoredMovie> {
    var candidates := Candidates(movies, liked);
    var scored := ScoreMovies(candidates, GenreVector(liked.genres), sqrt);
    Take(SortBy(scored, ScoreAtLeast), RecommendationCount)
  }

  /** Every recommendation is another movie, with its similarity to the
      liked one. */
  lemma RecommendedAreCandidates(movies: seq<Movie>, liked: Movie, sqrt: real -> real)
    ensures var r := Recommend(movies, liked, sqrt);
      forall i :: 0 <= i < |r| ==>
        && r[i].movie in movies && r[i].movie.id != liked.id
        && r[i].score == Cosine(GenreVector(liked.genres), GenreVector(r[i].movie.genres), sqrt)
  {
    var candidates := Candidates(movies, liked);
    var scored := ScoreMovies(candidates, GenreVector(liked.genres), sqrt);
    var r := Recommend(movies, liked, sqrt);
    ScoreAtLeastIsTotal(Elements(scored));
    TopK(scored, ScoreAtLeast, RecommendationCount);
    forall i | 0 <= i < |r|
      ensures r[i].movie in movies && r[i].movie.id != liked.id
      ensures r[i].score == Cosine(GenreVector(liked.genres), GenreVector(r[i].movie.genres), sqrt)
    {
      var k :| 0 <= k < |scored| && scored[k] == r[i];
      assert candidates[k] in candidates;
    }
  }

  /** No other movie left out is more similar than one recommended. */
  lemma RecommendedAreBest(movies: seq<Movie>, liked: Movie, sqrt: real -> real, m: Movie)
    requires m in movies && m.id != liked.id
    ensures var r := Recommend(movies, liked, sqrt);
      (forall i :: 0 <= i < |r| ==> r[i].movie != m) ==>
      forall i :: 0 <= i < |r| ==> r[i].score >= Cosine(GenreVector(liked.genres), GenreVector(m.genres), sqrt)
  {
    var candidates := Candidates(movies, liked);
    var scored := ScoreMovies(candidates, GenreVector(liked.genres), sqrt);
    var r := Recommend(movies, liked, sqrt);
    ScoreAtLeastIsTotal(Elements(scored));
    TopK(scored, ScoreAtLeast, RecommendationCount);
    assert m in candidates;
    var k :| 0 <= k < |candidates| && candidates[k] == m;
    var c := scored[k];
    assert c in scored;
    if forall i :: 0 <= i < |r| ==> r[i].movie != m {
      assert c !in r;
    }
  }

  /** At most two other movies are recommended (fewer only when there are
      fewer candidates), best first, each with its similarity to the liked
      movie, and no candidate left out is more similar than one kept. */
  lemma RecommendSelection(movies: seq<Movie>, liked: Movie, sqrt: real -> real)
    ensures var r := Recommend(movies, liked, sqrt);
      var candidates := Candidates(movies, liked);
      && |r| == (if |candidates| < RecommendationCount then |candidates| else RecommendationCount)
      && multiset(r) <= multiset(ScoreMovies(candidates, GenreVector(liked.genres), sqrt))
      && (forall i, j :: 0 <= i < j < |r| ==> r[i].score >= r[j].score)
      && (forall i :: 0 <= i < |r| ==>
            && r[i].movie in movies && r[i].movie.id != liked.id
            && r[i].score == Cosine(GenreVector(liked.genres), GenreVector(r[i].movie.genres), sqrt))
      && (forall m ::
            (m in movies && m.id != liked.id && (forall i :: 0 <= i < |r| ==> r[i].movie != m)) ==>
            forall i :: 0 <= i < |r| ==> r[i].score >= Cosine(GenreVector(liked.genres), GenreVector(m.genres), sqrt))
  {
    var scored := ScoreMovies(Candidates(movies, liked), GenreVector(liked.genres), sqrt);
    ScoreAtLeastIsTotal(Elements(scored));
    TopK(scored, ScoreAtLeast, RecommendationCount);
    RecommendedAreCandidates(movies, liked, sqrt);
    forall m | m in movies && m.id != liked.id {
      RecommendedAreBest(movies, liked, sqrt, m);
    }
  }

  /** Each recommendation's score is a similarity between 0 and 1. */
  lemma RecommendScoresBounded(movies: seq<Movie>, liked: Movie, sqrt: real -> real)
    requires IsSqrt(sqrt)
    ensures var r := Recommend(movies, liked, sqrt);
      forall i :: 0 <= i < |r| ==> 0.0 <= r[i].score <= 1.0
  {
    var r := Recommend(movies, liked, sqrt);
    RecommendSelection(movies, liked, sqrt);
    forall i | 0 <= i < |r| ensures 0.0 <= r[i].score <= 1.0 {
      GenreCosineBounds(liked.genres, r[i].movie.genres, sqrt);
    }
  }

  datatype RecommendationError = NoSelection | MovieNotFound

  /** What `getRecommendations` shows: the liked movie and its picks. */
  datatype Recommendations = Recommendations(liked: Movie, top: seq<ScoredMovie>)

  /** `getRecommendations` on the select's value: the value must parse as an
      integer, and a movie must have that id; the first such movie is the
      liked one. */
  function GetRecommendations(movies: seq<Movie>, selectedValue: string, sqrt: real -> real): (r: Result<Recommendations, RecommendationError>)
    ensures var id := ParseInt(selectedValue, Unspecified);
      && (r == Err(NoSelection) <==> id.None?)
      && (r == Err(MovieNotFound) <==> id.Some? && forall m :: m in movies ==> m.id != id.value)
      && (r.Ok? ==>
            && id.Some? && r.value.liked in movies && r.value.liked.id == id.value
            && r.value.liked == FindMovie(movies, id.value).value
            && r.value.top == Recommend(movies, r.value.liked, sqrt))
  {
    match ParseInt(selectedValue, Unspecified)
    case None => Err(NoSelection)
    case Some(id) =>
      match FindMovie(movies, id)
      case None => Err(MovieNotFound)
      case Some(liked) => Ok(Recommendations(liked, Recommend(movies, liked, sqrt)))
  }
}
