# Recommender demos in Dafny

This project models the logic of a set of small browser recommender demos.

- **Friend recommendation by PageRank** (`w5/`):
  - `computePageRank` builds a column-stochastic transition matrix from an adjacency list and runs a damped power iteration. It normalises each step.
  - `getCommonNeighbors` and the Jaccard similarity work over an edge list.
  - The page loads a friendship edge list and lists the nodes by score. It recommends the three best-scored non-friends and lets the user add an edge.
- **Two-tower retrieval on MovieLens** (`w4/`):
  - The page parses the genre, item and rating files, indexes users and items in order of first appearance, and groups each user's ratings best first.
  - It keeps the users with at least twenty ratings and cuts the training pairs into batches.
  - It recommends the ten best-scored unrated items for a random qualified user.
  - The model side covers the embedding lookups, the concatenation of item and genre embeddings, and the in-batch logits and their one-hot labels. It also covers the dot-product scores against every item.
- **Car recommendation** (`Midterm/app.js`):
  - The page parses the car CSV: it accepts rows, interns cars by `name_year` key, and gives every row its own user. It stops at the interaction cap.
  - It batches the training pairs and recommends the ten best unrated cars for a random user with a car.
- **Matrix-factorisation rating prediction** (`w2/script.js`): the page maps user and movie ids to dense indices in ascending id order. `predictRating` checks the selection and the model, then clamps the prediction to `[0.5, 5]`.
- **Genre content recommendation** (`script.js`, `data.js`):
  - Each movie becomes an 18-entry binary genre vector.
  - Movies are compared by cosine similarity, and the page recommends the two most similar other movies.

The model's modules:

| module | what it holds |
|---|---|
| `Wrappers`, `Collections`, `Text`, `Vectors` | The JavaScript built-ins the demos rely on: stable `sort` with a comparator, `slice`, `filter`, `Set` insertion order, `trim`, `split`, `parseInt`, `parseFloat`, sums and dot products. |
| `PageRank`, `Graph`, `FriendApp` | The `w5/` demo. |
| `TwoTowers`, `Batching`, `MovieLens` | The `w4/` demo. |
| `CarRecommender` | The `Midterm/` demo. |
| `RatingPredictor` | The `w2/` demo. |
| `GenreRecommender` | The root `script.js` demo. |

How the model stands in for the JavaScript runtime:

- Scores are exact `real` numbers.
- A JavaScript number read from text is a `JsNumber`: NaN, a finite value or an infinity.
- The loops that build things step by step are methods. Each is proved against a specification function: the PageRank matrix on an `array2`, the genre vector on an `array`, and the index maps and groupings on `map` values.
- The page objects whose fields are reassigned are classes.
- Randomness, the clock, `Math.sqrt` and the trained networks are parameters.

## Model

| member | source | states |
|---|---|---|
| PageRank.ComputePageRank | w5/pagerank.js:9-84 | The result is `Rank`: an empty map for an empty graph; an error when a listed neighbour is not a node, where JavaScript would index `M[undefined]`; an error when a step sums to zero, which `RankIsDistribution` rules out for damping in `[0, 1]` (JavaScript then yields NaN or infinite scores instead); otherwise the power-iteration scores keyed by node id. |
| PageRank.IndexNodes | w5/pagerank.js:18-21 | `nodeToIndex` maps each node id to its position in the sorted id list. |
| PageRank.BuildTransition | w5/pagerank.js:23-46 | It fails exactly when some neighbour is not a node. Otherwise the filled matrix is the transition matrix `Transition(adj, ids)`. |
| PageRank.FillColumn | w5/pagerank.js:29-45 | Only column `j` changes. It holds the transition entries for node `j` exactly when all of `j`'s neighbours are nodes. |
| PageRank.FillDangling | w5/pagerank.js:34-39 | Every entry of a dangling node's column becomes `1/n`; the other columns are unchanged. |
| PageRank.FillLinks | w5/pagerank.js:40-44 | Each row of a listed neighbour gets `1/outDegree` and the other rows stay 0, when all neighbours are nodes; the other columns are unchanged. |
| PageRank.PowerIterate | w5/pagerank.js:55-67 | The loop's vector is `Iterate` from the uniform vector: `iterations` damped steps, each divided by its sum. |
| PageRank.ScoresById | w5/pagerank.js:72-76 | The result object maps each id to the score at its index. |
| PageRank.Iterate | w5/pagerank.js:59-67 | The power iteration keeps the vector's length. |
| PageRank.NodeIdsOfGraph | w5/pagerank.js:10 | The sorted node ids are exactly the keys of the adjacency list, once each. |
| PageRank.NodeIndexBijection | w5/pagerank.js:10-21 | The ids are strictly increasing. `nodeToIndex` is defined on every node and only on nodes, and is inverse to the id list. |
| PageRank.NodeIndexInverse | w5/pagerank.js:18-21 | An indexed id sits at its index and nowhere else. |
| PageRank.UniformIsDistribution | w5/pagerank.js:56 | The initial vector is `1/n` everywhere, non-negative, and sums to 1. |
| PageRank.DanglingColumn | w5/pagerank.js:34-39 | A node without links has the column `1/n` in every row, summing to 1. |
| PageRank.LinkedColumn | w5/pagerank.js:40-44 | A linked node's column holds `1/outDegree` on its neighbours and 0 elsewhere. It sums to distinct neighbours over listed neighbours, which is 1 when the list has no repeats. |
| PageRank.TransitionShape | w5/pagerank.js:23-46 | The matrix is n×n and non-negative, and every column has a positive entry. |
| PageRank.StepHasPositiveSum | w5/pagerank.js:60-62 | For a damping factor in `[0, 1]`, a step from a distribution is non-negative with a positive sum, so the normalising division is defined. |
| PageRank.NormalizeIsDistribution | w5/pagerank.js:65-66 | Dividing a non-negative vector with a positive sum by that sum gives a distribution. |
| PageRank.IterateIsDistribution | w5/pagerank.js:59-67 | With damping in `[0, 1]`, every iteration succeeds and yields a distribution. |
| PageRank.RankIsDistribution | w5/pagerank.js:9-84 | For a non-empty graph whose links name nodes, with damping in `[0, 1]`, the scores cover exactly the nodes, are non-negative and sum to 1. |
| PageRank.ScoreMapOfDistribution | w5/pagerank.js:72-76 | Mapping a distribution back to ids keeps exactly the nodes, non-negative and summing to 1. |
| PageRank.ZeroIterationsUniform | w5/pagerank.js:56-76 | With no iterations every node scores `1/n`. |
| PageRank.SingleNodeScoresOne | w5/pagerank.js:9-84 | A one-node graph scores that node 1 after any number of iterations. |
| Graph.OtherEnds | w5/graph.js:13-17 | The ids collected for a node are exactly those joined to it by an edge. |
| Graph.Neighbours | w5/graph.js:12-23 | A node's neighbour set holds exactly the ids adjacent to it, once each. |
| Graph.CommonNeighbours | w5/graph.js:12-26 | The result holds exactly the ids adjacent to both nodes, once each. |
| Graph.NeighboursSymmetric | w5/graph.js:13-23 | `b` is a neighbour of `a` exactly when `a` is a neighbour of `b`. |
| Graph.CommonNeighboursSymmetric | w5/graph.js:12-26 | The common neighbours of `a, b` and of `b, a` are the same set, of the same size. |
| Graph.JaccardCounts | w5/graph.js:44-45 | The intersection and union sizes are those of the two neighbour sets. |
| Graph.JaccardIsSetRatio | w5/graph.js:31-48 | The similarity is the size of the intersection of the two neighbour sets over the size of their union, or 0 when both sets are empty. It lies in `[0, 1]` and is symmetric. |
| Graph.JaccardOneIffSameNeighbours | w5/graph.js:31-48 | The similarity is 1 exactly when the two nodes have the same non-empty neighbour set. |
| FriendApp.EndpointsExact | w5/app.js:35-39 | The ids added to the set are exactly the endpoints of the edges. |
| FriendApp.NodeListExact | w5/app.js:35-41 | The node list holds every endpoint once and nothing else. |
| FriendApp.FriendRecommender.constructor | w5/app.js:3-11 | The page starts with no nodes and no edges. |
| FriendApp.FriendRecommender.LoadData | w5/app.js:26-41 | The edges are the parsed rows. The nodes are their endpoints in order of first appearance. |
| FriendApp.FriendRecommender.SimulateConnection | w5/app.js:158-160 | The new edge is appended and the node list is unchanged. |
| FriendApp.ConnectionMakesFriends | w5/app.js:158-160 | After the push the two users are each other's friends, and every earlier friendship remains. |
| FriendApp.CurrentFriends | w5/app.js:71-76 | The friends listed are exactly the nodes adjacent to the given node. |
| FriendApp.CurrentFriendsSortedWithMultiplicity | w5/app.js:71-76 | The list is in ascending order. Each friend appears once per edge that joins them. |
| FriendApp.PotentialFriends | w5/app.js:110-115 | The candidates are exactly the nodes that are neither the user nor a current friend. |
| FriendApp.ScoreAtLeastIsTotal | w5/app.js:124 | The descending-score comparator is a total preorder. |
| FriendApp.CandidatesDescribeIds | w5/app.js:118-123 | Each entry carries its id's score, or 0 when the id has none, and the id's friend count. |
| FriendApp.RecommendationsTopThree | w5/app.js:108-125 | There are three recommendations, fewer only when there are fewer candidates. They are candidates, each used at most as often as it occurs (a sub-multiset), best score first, and no candidate left out scores higher. |
| FriendApp.TableRowsSorted | w5/app.js:54-58 | The table rows are a permutation of the nodes with their scores (0 when missing), in descending score order. |
| TwoTowers.LogitsShape | w4/two-towers.js:139 | The logits are a b×b matrix of user-item dot products. Swapping the towers transposes it. |
| TwoTowers.LogitsDiagonalIsScore | w4/two-towers.js:121-123 | The diagonal of the logits is the row-wise score of each user with their own item. |
| TwoTowers.LabelsAreIdentity | w4/two-towers.js:142-145 | The one-hot labels of `0..b-1` are the identity matrix. |
| TwoTowers.LabelsSelectPositive | w4/two-towers.js:139-145 | Each label row picks out the score of the positive pair from its logit row. |
| TwoTowers.ConcatWidth | w4/two-towers.js:100-104 | The concatenated item row is the item embedding followed by the 16-wide genre embedding. |
| TwoTowers.InferenceLookups | w4/two-towers.js:176-200 | Scoring every item looks up every item row in order and always genre 0. |
| TwoTowers.ScoresForAllItemsAreDots | w4/two-towers.js:184-186 | There is one score per item, and each is the dot product of the user embedding with that item's embedding. |
| Batching.CeilDivision | w4/app.js:196 | `Math.ceil(n / size)` batches cover `n` elements, and one fewer would not. |
| Batching.Batches | w4/app.js:196-206 | The batches are the consecutive slices `[b*size, min(b*size+size, n))`. Each is non-empty and at most `size` long, and together they are the whole list in order. |
| MovieLens.GenreEntry | w4/app.js:45-52 | A genre line is kept exactly when its name and id fields are both non-empty. |
| MovieLens.GenreIds | w4/app.js:72-78 | The genre ids are exactly the flag positions set to `1`, in increasing order. |
| MovieLens.PrimaryGenreIsFirstFlag | w4/app.js:72-78 | The primary genre is the first flag that is set, or 0 when none is. |
| MovieLens.Year | w4/app.js:68-69 | A year is read exactly when the title ends in a four-digit year in parentheses. |
| MovieLens.ItemLine | w4/app.js:60-87 | An item line gives an entry exactly when it has at least two fields. |
| MovieLens.InteractionLine | w4/app.js:95-106 | The interaction's genre is the item's primary genre, or 0 for an unknown item. |
| MovieLens.Interactions | w4/app.js:97 | At most 80000 ratings are read, fewer only when the file is shorter. |
| MovieLens.InteractionsAreLines | w4/app.js:97-106 | Interaction `i` is line `i` parsed. |
| MovieLens.GroupByUser | w4/app.js:141-148 | The loop builds `Grouped`: each user's ratings in file order. |
| MovieLens.GroupAndSort | w4/app.js:141-156 | The grouped, sorted map is `TopRated`. |
| MovieLens.TopRated | w4/app.js:141-158 | There is an entry for each user who rated. It is a permutation of that user's own ratings. |
| MovieLens.TopRatedKeys | w4/app.js:141-148 | A user has an entry exactly when some rating is theirs. |
| MovieLens.TopRatedHoldsOwn | w4/app.js:141-148 | Every rating appears in its user's list. |
| MovieLens.TopRatedOnlyOwn | w4/app.js:141-148 | A user's list holds only that user's ratings. |
| MovieLens.NumberLeIsOrder | w4/app.js:152-156 | The numeric comparison of ratings is total on non-NaN numbers, antisymmetric and transitive. |
| MovieLens.TopRatedSorted | w4/app.js:151-156 | Each user's list is ordered by rating, highest first; ties are ordered newest timestamp first. |
| MovieLens.RatedBeforeMeans | w4/app.js:152-156 | The comparator puts a higher rating first, and on a tie the later timestamp first. |
| MovieLens.Qualified | w4/app.js:161-170 | The qualified users are exactly the listed users with at least twenty ratings, without repeats. |
| MovieLens.QualifiedUsersHaveTwenty | w4/app.js:161-170 | A user qualifies exactly when they rated at least twenty times. |
| MovieLens.SetItemsStops | w4/app.js:60-87 | Once an item line fails, the remaining lines change nothing. |
| MovieLens.TrainingUsersIndexed | w4/app.js:190-191 | Every training pair has a user index that points back to its user, and carries the interaction's genre. |
| MovieLens.CandidateScores | w4/app.js:460-465 | The candidates are exactly the scored indices whose item the user has not rated, each with its own score. |
| MovieLens.TopUnratedSelection | w4/app.js:457-469 | There are ten recommendations, or all the candidates when fewer are unrated. They form a sub-multiset of the unrated candidates, each with its own score, best first, and no unrated item left out scores higher. |
| MovieLens.ApplyGenres | w4/app.js:45-52 | The genre loop computes `SetGenres`. |
| MovieLens.ApplyItems | w4/app.js:60-87 | The item loop computes `SetItems`, stopping at a line that throws. |
| MovieLens.MovieLensApp.constructor | w4/app.js:3-12 | Every table starts empty. |
| MovieLens.MovieLensApp.LoadData | w4/app.js:36-123 | The genres and items are those parsed. When the items load, the interactions are the first 80000 lines, the maps index users and items in first-appearance order, the reverse maps are their inverses, the groups are `TopRated` with the users in first-appearance order, the qualified users are those with twenty ratings, and the tables are `Valid`. Otherwise nothing after the items changes: interactions, all four maps, groups, user order and qualified users keep their old values. |
| MovieLens.MovieLensApp.LoadGenresAndItems | w4/app.js:45-87 | The genres and items tables are those the two parsing loops produce. |
| MovieLens.MovieLensApp.CreateMappings | w4/app.js:125-159 | The user and item maps, and their reverses, gain the first-appearance indices. The grouping is `TopRated`. |
| MovieLens.MovieLensApp.IndexUsersAndItems | w4/app.js:127-138 | The forward and reverse maps gain the first-appearance indices. |
| MovieLens.MovieLensApp.GroupUsers | w4/app.js:141-158 | `userTopRated` is `TopRated` of the interactions. |
| MovieLens.MovieLensApp.FindQualifiedUsers | w4/app.js:161-170 | `qualifiedUsers` is `Qualified` over the users in map order. |
| MovieLens.MovieLensApp.TrainingBatches | w4/app.js:190-206 | The batches cover the `(user index, genre)` pairs in order, in `ceil(n/512)` batches of at most 512. |
| MovieLens.MovieLensApp.Test | w4/app.js:435-537 | It refuses exactly when the model is missing or no user qualifies. It fails exactly when `displayResults` would throw for the drawn user: one of the first ten rated items or a recommended item is not in `items`, or a rating has no valid star count. Otherwise it shows the drawn qualified user and `TopUnrated` for that user's ratings. |
| MovieLens.ShowableWhenListed | w4/app.js:499-537 | When every indexed item is listed and the user's ratings are listed items with drawable ratings, the display of `TopUnrated` cannot fail. |
| MovieLens.HighRatingNotShowable | w4/app.js:503 | A rating of 5.5 or more, or below -0.5, makes a star count negative, so the display fails. |
| CarRecommender.DataRows | Midterm/app.js:51-55 | The header line is dropped only when it names `car_name`. |
| CarRecommender.ParseRow | Midterm/app.js:62-70 | A row is accepted exactly when it has at least nine fields and its year and three numbers all parse. |
| CarRecommender.KeyInjective | Midterm/app.js:73 | Two cars share a `name_year` key only when they have the same name and year. |
| CarRecommender.AddRow | Midterm/app.js:73-93 | An accepted row appends exactly one interaction and keeps the earlier ones. |
| CarRecommender.CarIdOfConsistent | Midterm/app.js:74-80 | A key seen before leads back to its car. A new key gets the next id. |
| CarRecommender.AddRowConsistent | Midterm/app.js:73-93 | Adding a row keeps the car and user tables consistent, and stores the row's car under its id. |
| CarRecommender.ParseRowsConsistent | Midterm/app.js:60-96 | The parsing loop keeps the tables consistent, keeps the interactions already there, and never drops a car. |
| CarRecommender.ParseRowsCount | Midterm/app.js:60-96 | Each accepted row adds one interaction until the cap of 80000 is reached. |
| CarRecommender.ParseRowsRecords | Midterm/app.js:60-96 | The k-th accepted row becomes the k-th new interaction: its selling price is the rating and its car is the row's car. |
| CarRecommender.FirstLoad | Midterm/app.js:50-97 | A first load leaves consistent tables with at most 80000 interactions. User `u` made interaction `u`, which records the u-th accepted row. |
| CarRecommender.SameKeySameCarId | Midterm/app.js:73-80 | Two interactions share a car id exactly when their cars share name and year. |
| CarRecommender.ReloadReusesUserZero | Midterm/app.js:57-58 | A second load restarts the counters: its first row becomes user 0 again. |
| CarRecommender.TrainingPairs | Midterm/app.js:115-116 | The training pairs are the `(userId, carId)` of each interaction, in order. |
| CarRecommender.CarCandidates | Midterm/app.js:255-257 | The candidates are exactly the scored car ids the user has not rated, each with its own score. |
| CarRecommender.TopCarsSelection | Midterm/app.js:255-259 | There are ten recommendations, or all the candidates when fewer are unrated. They form a sub-multiset of the unrated cars, each with its own score, best first, and no unrated car left out scores higher. |
| CarRecommender.CarApp.constructor | Midterm/app.js:4-10 | The globals start empty. |
| CarRecommender.CarApp.ParseCarData | Midterm/app.js:50-97 | The new tables are `ParseRows` over the parsed data lines, starting from the old tables with both counters at 0. |
| CarRecommender.CarApp.AcceptRow | Midterm/app.js:73-93 | One accepted row updates the globals as `AddRow`. |
| CarRecommender.CarApp.InternCar | Midterm/app.js:73-80 | The car id is the key's id or the next one, and the car tables become `Intern`. |
| CarRecommender.CarApp.AddUserRow | Midterm/app.js:84-93 | The user tables become `AddUser`. |
| CarRecommender.CarApp.TrainingBatches | Midterm/app.js:115-128 | The batches cover the training pairs in order, in `ceil(n/64)` batches of at most 64. |
| CarRecommender.CarApp.TestRecommendation | Midterm/app.js:231-267 | It fails exactly when no user has a car or the model is missing. Otherwise it shows the drawn user, that user's cars and `TopCars` of the scores without them. |
| RatingPredictor.MappingPositions | w2/script.js:45-56 | Each distinct id gets its position in ascending order. Every id is mapped, below the number of ids. |
| RatingPredictor.MappingOrderPreserving | w2/script.js:45-56 | A smaller id gets a smaller index, and only a smaller id does. |
| RatingPredictor.TrainingIndicesInRange | w2/script.js:173-175 | Every rating's user and movie have an index below the number of distinct users and movies. |
| RatingPredictor.Clamp | w2/script.js:276 | A number is brought into `[0.5, 5]` and a number already there is kept. Values below go to 0.5, values above to 5, and infinities to the nearer end. NaN stays NaN. |
| RatingPredictor.RatingApp.constructor | w2/script.js:3-6 | The maps start empty. |
| RatingPredictor.RatingApp.CreateMappings | w2/script.js:43-57 | Each map gains the ascending-id indices of the users or movies, and each reverse map gains their inverse. |
| RatingPredictor.RatingApp.PredictRating | w2/script.js:230-300 | A missing selection, a missing model and an unmapped id are each reported exactly when they occur, in that order. Otherwise the shown rating is the clamped prediction for the mapped indices, NaN or in `[0.5, 5]`. |
| GenreRecommender.GenreNamesDistinct | data.js:6-11 | There are 18 genre names, all distinct. |
| GenreRecommender.GenresToVector | script.js:47-60 | The fresh array is `GenreVector`: 1 at the index of each named genre, 0 elsewhere, 18 long. |
| GenreRecommender.FlagArray | script.js:49-57 | For any table of distinct names, the loop leaves in a fresh array a 1 at the position of each listed name and 0 elsewhere, whatever the order or repetition of the genres. |
| GenreRecommender.GenreVectorSnoc | script.js:52-56 | One more genre sets only its own entry to 1, and a genre missing from `genreNames` changes nothing. |
| GenreRecommender.CosineSimilarity | script.js:68-86 | The loop's result is `Cosine`: the dot product over the product of the magnitudes, or 0 when either magnitude is 0. |
| GenreRecommender.CosineZeroMagnitude | script.js:76-82 | A magnitude is 0 exactly when the vector is all zeros, and then the similarity is 0. |
| GenreRecommender.CosineSymmetric | script.js:68-86 | The similarity does not depend on the order of the two vectors. |
| GenreRecommender.CosineSelf | script.js:68-86 | A non-zero vector has similarity 1 with itself. |
| GenreRecommender.BinaryDotBounds | script.js:70-73 | For 0/1 vectors the dot product lies between 0 and each vector's squared magnitude. |
| GenreRecommender.BinaryCosineBounds | script.js:68-86 | For 0/1 vectors the similarity lies in `[0, 1]`. |
| GenreRecommender.GenreCosineBounds | script.js:118-132 | The similarity of two movies' genre vectors lies in `[0, 1]`. |
| GenreRecommender.FindMovie | script.js:105-109 | The lookup finds the first movie with the id, and finds none exactly when no movie has it. |
| GenreRecommender.ScoreMovies | script.js:124-132 | Each candidate is paired with its cosine similarity to the liked movie. |
| GenreRecommender.RecommendSelection | script.js:121-138 | There are two recommendations, or fewer when there are fewer other movies. They are a sub-multiset of the scored other movies, each with its own similarity, best first, and no other movie left out scores higher. |
| GenreRecommender.RecommendScoresBounded | script.js:124-138 | Every recommended score lies in `[0, 1]`. |
| GenreRecommender.GetRecommendations | script.js:91-158 | A selection that does not parse and an unknown id are each reported exactly when they occur. Otherwise the liked movie is the first with the id, and the list is `Recommend`. |
| Collections.SortBy | w4/app.js:151-156 | Sorting returns a permutation of its input. |
| Collections.SortByIsSorted | w4/app.js:151-156 | Under a consistent comparator the result is sorted. |
| Collections.TopK | w5/app.js:118-125 | A sort then `slice(0, k)` keeps `min(k, n)` elements of the input, sorted, with no element left out preceding one that was kept. |
| Collections.Dedup | w5/app.js:35-41 | A `Set` built by insertion holds each element once, and nothing else. |
| Collections.DedupFirstAppearance | w4/app.js:127-138 | The `Set` orders elements by their first appearance. |
| Collections.SortedKeys | w2/script.js:45-49 | The ids sorted with `(a, b) => a - b` are the distinct ids, strictly increasing. |
| Collections.IndexMapsInverse | w4/app.js:127-138 | The forward and reverse index maps are inverse to each other. |
| Collections.AssignIndices | w2/script.js:45-56 | Setting each element's position in both maps adds `IndexMap` and `ReverseMap` to them. |
| Text.SplitJoin | Midterm/app.js:62 | Splitting at a separator loses nothing: joining the pieces back gives the line. |
| Text.ParseIntDecimalString | w2/script.js:237-238 | `parseInt` of an id written in decimal gives the id back. |
| Text.ParseFloatDecimalString | Midterm/app.js:64-68 | `parseFloat` of an integer written in decimal gives that number. |
| Vectors.DotSymmetric | script.js:70-73 | The dot product does not depend on the order of its arguments. |

## Left out

- Rendering is not modelled: the DOM, d3 and Chart.js drawing, status messages, `toFixed` formatting, and the HTML built from titles and genres. Whether `displayResults` in w4/app.js throws is modelled by `MovieLens.Showable`. This covers `renderGraph`, `populateMoviesDropdown`, the tables and charts, `computePCA` and `drawEmbeddingProjection`.
- File and network input are not modelled (`fetch`, `d3.csv`, the `data.js` loader). The parsed rows or lines are parameters.
- `async`/`await`, `setTimeout` and the promise chaining around the calls are not modelled. Calls are sequential.
- JavaScript numbers are IEEE doubles; the model uses exact integers and reals. Rounding, overflow and float precision in the tensors are not modelled.
- A NaN rating or score reaching a sort comparator makes the comparator inconsistent. The sort lemmas assume consistent comparators, and `MovieLens.TopRatedSorted` requires numeric ratings and timestamps, since `b.timestamp - a.timestamp` is NaN otherwise.
- The sorts that work in place (`Array.prototype.sort`) are modelled on values by a stable insertion sort.
- `Math.random` is modelled as the drawn index or user, passed as a parameter. `Date.now` is a clock function passed to `ParseCarData`.
- Neither network is trained: no gradients, no softmax loss, no Adam, no dense layers. In the w4 two-tower model the item tower's dense layers are an opaque function, and the user and item embeddings used at inference are parameters. The w2 matrix-factorisation model is a prediction function.
- `Math.sqrt` has no exact real model. `GenreRecommender.Cosine` takes a square-root function, and its bounds are proved for any function satisfying `IsSqrt`.
- `GenreRecommender.CosineSimilarity` requires vectors of equal length, which `genresToVector` always produces (18 entries); JavaScript would read `undefined` past the shorter one.
- `Midterm/car-finder.js` and `Midterm/two-tower.js` are not part of this model.
- `w5/app.js:16` and `w5/app.js:163` pass the whole `{nodes, edges}` graph object to `computePageRank`, not an adjacency list. `PageRank.ComputePageRank` models the function as written for an adjacency list.
- `w4/app.js:205-208` pass two arrays to `trainStep`, and `w4/app.js:454` passes two arguments to `getScoresForAllItems`. Training is not modelled, and scoring takes the item embeddings as a parameter.
- `qualifiedUsers` is `undefined` in JavaScript until the first load, and the guard of `test` reads its length only once a model exists. The model starts it as an empty list.
- `CarRecommender.CarApp.TestRecommendation` takes one score per indexed car, as the model's output for all cars.
- `CarRecommender.CarApp.ParseCarData` models a reload as written: the globals persist while the counters restart at 0, so a second load reuses ids (`ReloadReusesUserZero`).
- `RatingPredictor.RatingApp.PredictRating` leaves out the movie-title lookup and the display of the result.
- `PageRank.ComputePageRank` returns an error where a step sums to zero, which needs a damping factor outside `[0, 1]`; JavaScript divides by that zero and returns NaN or infinite scores. The defaults `iterations = 50` and `dampingFactor = 0.85` of `computePageRank` are parameters of the model.
- `PageRank.Iterate` states only that the vector keeps its length. Its distribution property is the separate lemma `PageRank.IterateIsDistribution`.
