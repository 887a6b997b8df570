/** The matrix-factorisation rating demo (`w2/script.js`): `createMappings`,
    which gives every user id and every movie id a dense index in ascending
    order of id, and the checks and the clamp around the model's prediction
    in `predictRating`. The ratings come from the page's data loader; the
    network and its training are not modelled, so a prediction is a
    parameter. */
module RatingPredictor {
  import opened Collections
  import opened Text

  const MinRating: real := 0.5
  const MaxRating: real := 5.0

  /** An entry of `ratings`. */
  datatype Rating = Rating(userId: int, itemId: int, rating: real)

  function UserIdSet(ratings: seq<Rating>): set<int> {
    set r | r in ratings :: r.userId
  }

  function MovieIdSet(ratings: seq<Rating>): set<int> {
    set r | r in ratings :: r.itemId
  }

  /** `[...new Set(ids)].sort((a, b) => a - b)`: the distinct ids in
      ascending order, each at the position the index maps assign it. */
  lemma MappingPositions(ids: set<int>)
    ensures var order := SortedKeys(ids);
      && IndexMap(order).Keys == ids
      && (forall i :: 0 <= i < |order| ==> IndexMap(order)[order[i]] == i)
      && (forall x :: x in ids ==> IndexMap(order)[x] < |ids|)
  {
    var order := SortedKeys(ids);
    SortedKeysDistinct(ids);
    IndexMapsInverse(order);
    forall i | 0 <= i < |order| ensures IndexMap(order)[order[i]] == i {
      IndexOfDistinct(order, i);
    }
  }

  /** The mapping keeps the order of the ids: a smaller id gets a smaller
      index, and only a smaller id does. */
  lemma MappingOrderPreserving(ids: set<int>, a: int, b: int)
    requires a in ids && b in ids
    ensures var m := IndexMap(SortedKeys(ids));
      a < b <==> m[a] < m[b]
  {
    var order := SortedKeys(ids);
    SortedKeysDistinct(ids);
    var i, j := IndexOf(order, a), IndexOf(order, b);
    if i < j {
      assert order[i] < order[j];
    } else if j < i {
      assert order[j] < order[i];
    }
  }

  /** The training tensors of `trainModel`: every rating's user and movie
      has an index, below the number of distinct users and movies. */
  lemma TrainingIndicesInRange(ratings: seq<Rating>)
    ensures forall r :: r in ratings ==>
      && r.userId in IndexMap(SortedKeys(UserIdSet(ratings)))
      && IndexMap(SortedKeys(UserIdSet(ratings)))[r.userId] < |UserIdSet(ratings)|
      && r.itemId in IndexMap(SortedKeys(MovieIdSet(ratings)))
      && IndexMap(SortedKeys(MovieIdSet(ratings)))[r.itemId] < |MovieIdSet(ratings)|
  {
    MappingPositions(UserIdSet(ratings));
    MappingPositions(MovieIdSet(ratings));
  }

  // --------------------------------------------------------------- the clamp

  /** `a < b` between two numbers that are not NaN. */
  predicate Below(a: JsNumber, b: JsNumber)
    requires !a.NaN? && !b.NaN?
  {
    match (a, b)
    case (Num(x), Num(y)) => x < y
    case (Inf(na), Inf(nb)) => na && !nb
    case (Inf(na), _) => na
    case (_, Inf(nb)) => !nb
  }

  /** `Math.max(a, b)`: NaN when either is. */
  function Max(a: JsNumber, b: JsNumber): JsNumber {
    if a.NaN? || b.NaN? then NaN else if Below(a, b) then b else a
  }

  /** `Math.min(a, b)`: NaN when either is. */
  function Min(a: JsNumber, b: JsNumber): JsNumber {
    if a.NaN? || b.NaN? then NaN else if Below(b, a) then b else a
  }

  /** `Math.min(5, Math.max(0.5, p))`: a number is brought into
      `[0.5, 5]`, a number already there is kept, and NaN stays NaN. */
  function Clamp(p: JsNumber): (r: JsNumber)
    ensures r.NaN? <==> p.NaN?
    ensures !p.NaN? ==> r.Num? && MinRating <= r.value <= MaxRating
    ensures p.Num? && MinRating <= p.value <= MaxRating ==> r == p
    ensures p.Num? && p.value < MinRating ==> r == Num(MinRating)
    ensures p.Num? && p.value > MaxRating ==> r == Num(MaxRating)
    ensures p == Inf(true) ==> r == Num(MinRating)
    ensures p == Inf(false) ==> r == Num(MaxRating)
  {
    Min(Num(MaxRating), Max(Num(MinRating), p))
  }

  /** Clamping twice is clamping once. */
  lemma ClampIdempotent(p: JsNumber)
    ensures Clamp(Clamp(p)) == Clamp(p)
  {
  }

  /** Clamping keeps the order of two predictions. */
  lemma ClampMonotone(p: JsNumber, q: JsNumber)
    requires !p.NaN? && !q.NaN? && !Below(q, p)
    ensures !Below(Clamp(q), Clamp(p))
  {
  }

  // ------------------------------------------------------------ predictRating

  /** What `predictRating` shows. */
  datatype Prediction =
    | MissingSelection
    | NotTrained
    | InvalidSelection
    | Predicted(userIndex: nat, movieIndex: nat, rating: JsNumber)

  class RatingApp {
    /** The ratings the data loader filled. */
    var ratings: seq<Rating>
    var userMapping: map<int, nat>
    var movieMapping: map<int, nat>
    var reverseUserMapping: map<nat, int>
    var reverseMovieMapping: map<nat, int>

    constructor(loaded: seq<Rating>)
      ensures ratings == loaded
      ensures userMapping == map[] && movieMapping == map[]
      ensures reverseUserMapping == map[] && reverseMovieMapping == map[]
    {
      ratings := loaded;
      userMapping, movieMapping := map[], map[];
      reverseUserMapping, reverseMovieMapping := map[], map[];
    }

    /** `createMappings`: each distinct user id, in ascending order, is
        `set` to its position, and the position back to the id; the same for
        movies. Entries already in the maps stay unless overwritten. */
    method CreateMappings()
      modifies this`userMapping, this`reverseUserMapping, this`movieMapping, this`reverseMovieMapping
      ensures userMapping == old(userMapping) + IndexMap(SortedKeys(UserIdSet(ratings)))
      ensures reverseUserMapping == old(reverseUserMapping) + ReverseMap(SortedKeys(UserIdSet(ratings)))
      ensures movieMapping == old(movieMapping) + IndexMap(SortedKeys(MovieIdSet(ratings)))
      ensures reverseMovieMapping == old(reverseMovieMapping) + ReverseMap(SortedKeys(MovieIdSet(ratings)))
    {
      var uniqueUsers := SortedKeys(UserIdSet(ratings));
      userMapping, reverseUserMapping := AssignIndices(uniqueUsers, userMapping, reverseUserMapping);
      var uniqueMovies := SortedKeys(MovieIdSet(ratings));
      movieMapping, reverseMovieMapping := AssignIndices(uniqueMovies, movieMapping, reverseMovieMapping);
    }

    /** `predictRating` on the two selects' values. `trained` says whether
        the model exists, and `predict` is its output for a user index and a
        movie index. The selections must both parse, the model must exist,
        and both ids must be mapped; the prediction is then clamped. */
    function PredictRating(userValue: string, movieValue: string, trained: bool, predict: (nat, nat) -> JsNumber): (r: Prediction)
      reads this
      ensures var user, movie := ParseInt(userValue, Unspecified), ParseInt(movieValue, Unspecified);
        && (r == MissingSelection <==> user.None? || movie.None?)
        && (r == NotTrained <==> user.Some? && movie.Some? && !trained)
        && (r == InvalidSelection <==>
              && user.Some? && movie.Some? && trained
              && (user.value !in userMapping || movie.value !in movieMapping))
        && (r.Predicted? ==>
              && user.Some? && movie.Some?
              && user.value in userMapping && movie.value in movieMapping
              && r.userIndex == userMapping[user.value] && r.movieIndex == movieMapping[movie.value]
              && r.rating == Clamp(predict(r.userIndex, r.movieIndex))
              && (r.rating.NaN? || MinRating <= r.rating.value <= MaxRating))
    {
      var user, movie := ParseInt(userValue, Unspecified), ParseInt(movieValue, Unspecified);
      if user.None? || movie.None? then MissingSelection
      else if !trained then NotTrained
      else if user.value !in userMapping || movie.value !in movieMapping then InvalidSelection
      else
        var userIndex, movieIndex := userMapping[user.value], movieMapping[movie.value];
        Predicted(userIndex, movieIndex, Clamp(predict(userIndex, movieIndex)))
    }
  }
}
