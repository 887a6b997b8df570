/** The data side of the MovieLens two-tower demo (`w4/app.js`): the
    parsers of the `u.genre`, `u.item` and `u.data` files, the
    `MovieLensApp` object whose loading, `createMappings` and
    `findQualifiedUsers` fill its maps, and the selection of the top-10
    unrated movies in `test`. Ids come from `parseInt`, whose NaN is a
    legitimate `Map` key in JavaScript; an id is therefore an
    `Option<int>` with `None` for NaN. */
module MovieLens {
  import opened Wrappers
  import opened Collections
  import opened Text
  import Batching

  const MaxInteractions: nat := 80000
  const BatchSize: nat := 512
  const QualifyingCount: nat := 20
  const RecommendationCount: nat := 10
  /** `parts.slice(5, 24)`: the genre flags of a `u.item` line. */
  const FirstGenreField: nat := 5
  const GenreFieldCount: nat := 19

  /** A `parseInt` result; `None` is NaN. */
  type Id = Option<int>

  datatype Movie = Movie(title: string, year: Option<nat>, genres: seq<string>)

  datatype Interaction = Interaction(
    userId: Id, itemId: Id, rating: JsNumber, timestamp: Id, genreId: nat)

  /** `text.trim().split('\n')`. */
  function Lines(text: string): seq<string> {
    Split(Trim(text), '\n')
  }

  // ---------------------------------------------------------------- u.genre

  /** One `u.genre` line `name|id`: kept when both parts are non-empty, as
      the trimmed name under the parsed id. */
  function GenreEntry(line: string): (r: Option<(Id, string)>)
    ensures r.Some? <==> Split(line, '|')[0] != [] && |Split(line, '|')| > 1 && Split(line, '|')[1] != []
  {
    var parts := Split(line, '|');
    if parts[0] != [] && |parts| > 1 && parts[1] != [] then
      Some((ParseInt(parts[1], Unspecified), Trim(parts[0])))
    else None
  }

  /** The genre table after `set`ting the entries of `lines` in order
      into `genres`: a later line overrides an earlier one with the same id.
      (The `filter(line => line)` before it only drops empty lines, which
      have no entry anyway.) */
  function SetGenres(genres: map<Id, string>, lines: seq<string>): map<Id, string> {
    if lines == [] then genres
    else
      var before := SetGenres(genres, lines[..|lines| - 1]);
      match GenreEntry(lines[|lines| - 1])
      case None => before
      case Some((id, name)) => before[id := name]
  }

  // ----------------------------------------------------------------- u.item

  /** The positions `j < k` of the genre flags equal to `'1'`. */
  function FlaggedBelow(parts: seq<string>, k: nat): (ids: seq<nat>)
    ensures forall j: nat :: j in ids <==> j < k && IsGenreFlag(parts, j)
    ensures StrictlyIncreasing(ids)
    ensures forall i :: 0 <= i < |ids| ==> ids[i] < k
  {
    if k == 0 then []
    else FlaggedBelow(parts, k - 1) + (if IsGenreFlag(parts, k - 1) then [k - 1] else [])
  }

  predicate IsGenreFlag(parts: seq<string>, j: nat) {
    FirstGenreField + j < |parts| && parts[FirstGenreField + j] == "1"
  }

  /** `movieGenres`: the positions `j` in `0..18` whose field `5 + j` is
      exactly `'1'`, in increasing order. */
  function GenreIds(parts: seq<string>): (ids: seq<nat>)
    ensures forall j: nat :: j in ids <==> j < GenreFieldCount && IsGenreFlag(parts, j)
    ensures StrictlyIncreasing(ids)
  {
    FlaggedBelow(parts, GenreFieldCount)
  }

  /** `movieGenres.length > 0 ? movieGenres[0] : 0`. */
  function PrimaryGenre(ids: seq<nat>): nat {
    if |ids| > 0 then ids[0] else 0
  }

  /** The primary genre is the first flagged position, or 0 when no flag is set. */
  lemma PrimaryGenreIsFirstFlag(parts: seq<string>)
    ensures (exists j: nat :: j < GenreFieldCount && IsGenreFlag(parts, j)) ==>
      var p := PrimaryGenre(GenreIds(parts));
      p < GenreFieldCount && IsGenreFlag(parts, p) && forall j: nat :: j < p ==> !IsGenreFlag(parts, j)
    ensures (forall j: nat :: j < GenreFieldCount ==> !IsGenreFlag(parts, j)) ==>
      PrimaryGenre(GenreIds(parts)) == 0
  {
    var ids := GenreIds(parts);
    if ids != [] {
      assert ids[0] in ids;
      FirstIsLeast(ids);
    }
  }

  lemma FirstIsLeast(ids: seq<nat>)
    requires StrictlyIncreasing(ids) && ids != []
    ensures forall j :: j in ids ==> ids[0] <= j
  {
    forall j | j in ids ensures ids[0] <= j {
      var k :| 0 <= k < |ids| && ids[k] == j;
      assert k == 0 || ids[0] < ids[k];
    }
  }

  /** `/\((\d{4})\)$/`: the title ends with four digits in parentheses. */
  predicate HasTrailingYear(title: string) {
    && |title| >= 6
    && title[|title| - 6] == '(' && title[|title| - 1] == ')'
    && forall i :: |title| - 5 <= i < |title| - 1 ==> IsDigit(title[i])
  }

  /** `yearMatch ? parseInt(yearMatch[1]) : null`. */
  function Year(title: string): (year: Option<nat>)
    ensures year.Some? <==> HasTrailingYear(title)
    ensures year.Some? ==> year.value < 10000
  {
    if HasTrailingYear(title) then
      var digits := title[|title| - 5..|title| - 1];
      DecimalBelow(digits);
      assert Pow10(|digits|) == 10000 by {
        assert Pow10(1) == 10 && Pow10(2) == 100 && Pow10(3) == 1000;
      }
      Some(DecimalValue(digits))
    else None
  }

  lemma {:induction false} DecimalBelow(d: string)
    requires forall i :: 0 <= i < |d| ==> IsDigit(d[i])
    ensures DecimalValue(d) < Pow10(|d|)
  {
    if d != [] {
      DecimalBelow(d[..|d| - 1]);
    }
  }

  /** `title.replace(/\(\d{4}\)$/, '').trim()`. */
  function BareTitle(title: string): string {
    Trim(if HasTrailingYear(title) then title[..|title| - 6] else title)
  }

  /** `this.genres.get(genreId) || \`Genre${genreId}\``: a missing or empty
      name falls back to a made-up one. */
  function GenreName(genres: map<Id, string>, id: nat): string {
    if Some(id) in genres && genres[Some(id)] != [] then genres[Some(id)]
    else "Genre" + DecimalString(id)
  }

  datatype ItemEntry = ItemEntry(id: Id, movie: Movie, primaryGenre: nat)

  /** `movieGenres.map(...)`: the name of each genre id. */
  function GenreNames(genres: map<Id, string>, ids: seq<nat>): (names: seq<string>)
    ensures |names| == |ids|
    ensures forall i :: 0 <= i < |ids| ==> names[i] == GenreName(genres, ids[i])
  {
    seq(|ids|, i requires 0 <= i < |ids| => GenreName(genres, ids[i]))
  }

  /** One `u.item` line. `None` when the line has no second field: the
      title is then `undefined` and `title.match` throws. */
  function ItemLine(line: string, genres: map<Id, string>): (r: Option<ItemEntry>)
    ensures r.Some? <==> |Split(line, '|')| >= 2
  {
    var parts := Split(line, '|');
    if |parts| < 2 then None
    else
      var ids := GenreIds(parts);
      Some(ItemEntry(
        ParseInt(parts[0], Unspecified),
        Movie(BareTitle(parts[1]), Year(parts[1]), GenreNames(genres, ids)),
        PrimaryGenre(ids)))
  }

  // ----------------------------------------------------------------- u.data

  /** `parseInt(x)` of a destructured field, `undefined` giving NaN. */
  function IntField(field: Option<string>): Id {
    match field
    case None => None
    case Some(s) => ParseInt(s, Unspecified)
  }

  function FloatField(field: Option<string>): JsNumber {
    match field
    case None => NaN
    case Some(s) => ParseFloat(s)
  }

  /** One `u.data` line `user\titem\trating\ttimestamp`; the genre is the
      item's primary genre, 0 when the item is unknown. */
  function InteractionLine(line: string, itemGenres: map<Id, nat>): (r: Interaction)
    ensures r.genreId == if r.itemId in itemGenres then itemGenres[r.itemId] else 0
  {
    var parts := Split(line, '\t');
    var itemId := IntField(Field(parts, 1));
    Interaction(
      IntField(Field(parts, 0)), itemId, FloatField(Field(parts, 2)), IntField(Field(parts, 3)),
      if itemId in itemGenres then itemGenres[itemId] else 0)
  }

  /** `interactionsLines.slice(0, maxInteractions).map(...)`. */
  function Interactions(lines: seq<string>, itemGenres: map<Id, nat>): (r: seq<Interaction>)
    ensures |r| <= MaxInteractions
    ensures |r| == if |lines| < MaxInteractions then |lines| else MaxInteractions
  {
    ReadInteractions(Take(lines, MaxInteractions), itemGenres)
  }

  function ReadInteractions(lines: seq<string>, itemGenres: map<Id, nat>): (r: seq<Interaction>)
    ensures |r| == |lines|
  {
    if lines == [] then []
    else ReadInteractions(lines[..|lines| - 1], itemGenres) + [InteractionLine(lines[|lines| - 1], itemGenres)]
  }

  /** Interaction `i` is read from line `i`: the first `maxInteractions`
      lines are kept, in order. */
  lemma InteractionsAreLines(lines: seq<string>, itemGenres: map<Id, nat>, i: nat)
    requires i < |Interactions(lines, itemGenres)|
    ensures i < |lines| && Interactions(lines, itemGenres)[i] == InteractionLine(lines[i], itemGenres)
  {
    ReadInteractionsAt(Take(lines, MaxInteractions), itemGenres, i);
  }

  lemma {:induction false} ReadInteractionsAt(lines: seq<string>, itemGenres: map<Id, nat>, i: nat)
    requires i < |lines|
    ensures ReadInteractions(lines, itemGenres)[i] == InteractionLine(lines[i], itemGenres)
  {
    if i < |lines| - 1 {
      ReadInteractionsAt(lines[..|lines| - 1], itemGenres, i);
    }
  }

  // --------------------------------------------------------- createMappings

  function UserIds(s: seq<Interaction>): (ids: seq<Id>)
    ensures |ids| == |s| && forall i :: 0 <= i < |s| ==> ids[i] == s[i].userId
  {
    seq(|s|, i requires 0 <= i < |s| => s[i].userId)
  }

  function ItemIds(s: seq<Interaction>): (ids: seq<Id>)
    ensures |ids| == |s| && forall i :: 0 <= i < |s| ==> ids[i] == s[i].itemId
  {
    seq(|s|, i requires 0 <= i < |s| => s[i].itemId)
  }

  /** The interactions of user `u`, in the order they were loaded. */
  function OfUser(s: seq<Interaction>, u: Id): seq<Interaction> {
    Filter(s, (it: Interaction) => it.userId == u)
  }

  /** `userInteractions` after the grouping loop: each user that occurs
      has the list of its own interactions. */
  function Grouped(s: seq<Interaction>): (g: map<Id, seq<Interaction>>)
    ensures g.Keys == Elements(UserIds(s))
  {
    map u | u in UserIds(s) :: OfUser(s, u)
  }

  lemma GroupedSnoc(s: seq<Interaction>, x: Interaction)
    ensures var g := Grouped(s);
      Grouped(s + [x]) == g[x.userId := (if x.userId in g then g[x.userId] else []) + [x]]
  {
    var g := Grouped(s);
    var u := x.userId;
    var longer := Grouped(s + [x]);
    var expected := g[u := (if u in g then g[u] else []) + [x]];
    assert UserIds(s + [x]) == UserIds(s) + [u];
    assert longer.Keys == expected.Keys;
    forall v | v in longer ensures longer[v] == expected[v] {
      OfUserSnoc(s, x, v);
      if v == u && u !in g {
        OfUserAbsent(s, u);
      }
    }
  }

  lemma OfUserSnoc(s: seq<Interaction>, x: Interaction, v: Id)
    ensures OfUser(s + [x], v) == OfUser(s, v) + (if x.userId == v then [x] else [])
  {
    FilterSnoc(s, x, (it: Interaction) => it.userId == v);
  }

  lemma OfUserAbsent(s: seq<Interaction>, u: Id)
    requires u !in UserIds(s)
    ensures OfUser(s, u) == []
  {
    forall x | x in s ensures x.userId != u {
      var i :| 0 <= i < |s| && s[i] == x;
      assert UserIds(s)[i] == x.userId;
    }
    FilterNone(s, (it: Interaction) => it.userId == u);
  }

  /** The grouping loop of `createMappings`. */
  method GroupByUser(s: seq<Interaction>) returns (groups: map<Id, seq<Interaction>>)
    ensures groups == Grouped(s)
  {
    groups := map[];
    var i := 0;
    while i < |s|
      invariant 0 <= i <= |s|
      invariant groups == Grouped(s[..i])
    {
      var u := s[i].userId;
      GroupStep(s, i);
      var own := if u in groups then groups[u] else [];
      groups := groups[u := own + [s[i]]];
      i := i + 1;
    }
    assert s[..|s|] == s;
  }

  /** One turn of the grouping loop: interaction `i` is appended to its
      user's list, which starts empty. */
  lemma GroupStep(s: seq<Interaction>, i: nat)
    requires i < |s|
    ensures var g, u := Grouped(s[..i]), s[i].userId;
      Grouped(s[..i + 1]) == g[u := (if u in g then g[u] else []) + [s[i]]]
  {
    var prefix, x := s[..i], s[i];
    assert s[..i + 1] == prefix + [x];
    GroupedSnoc(prefix, x);
  }

  /** The grouping loop followed by the sort of each user's list. */
  method GroupAndSort(s: seq<Interaction>) returns (top: map<Id, seq<Interaction>>)
    ensures top == TopRated(s)
  {
    var groups := GroupByUser(s);
    top := SortEach(groups);
  }

  /** JavaScript `x <= y` on numbers: false whenever one side is NaN. */
  predicate NumberLe(x: JsNumber, y: JsNumber) {
    match (x, y)
    case (NaN, _) => false
    case (_, NaN) => false
    case (Inf(true), _) => true
    case (_, Inf(false)) => true
    case (Num(a), Num(b)) => a <= b
    case _ => false
  }

  /** `x <= y` on parsed integers. */
  predicate IdLe(x: Id, y: Id) {
    x.Some? && y.Some? && x.value <= y.value
  }

  /** The comparator of the per-user sort, `cmp(a, b) <= 0`:
      `b.rating !== a.rating ? b.rating - a.rating : b.timestamp - a.timestamp`.
      Two different ratings compare by their difference (NaN never passes);
      equal ratings fall through to the timestamps. */
  predicate RatedBefore(a: Interaction, b: Interaction) {
    if a.rating != b.rating || a.rating.NaN? then NumberLe(b.rating, a.rating)
    else IdLe(b.timestamp, a.timestamp)
  }

  /** `this.userTopRated`: each user's interactions, best rated first and,
      among equal ratings, newest first. */
  function TopRated(s: seq<Interaction>): (top: map<Id, seq<Interaction>>)
    ensures top.Keys == Elements(UserIds(s))
    ensures forall u :: u in top ==> multiset(top[u]) == multiset(OfUser(s, u))
  {
    SortEach(Grouped(s))
  }

  /** The in-place sort of every user's list. */
  function SortEach(groups: map<Id, seq<Interaction>>): (sorted: map<Id, seq<Interaction>>)
    ensures sorted.Keys == groups.Keys
    ensures forall u :: u in groups ==> multiset(sorted[u]) == multiset(groups[u])
  {
    map u | u in groups :: SortBy(groups[u], RatedBefore)
  }


  /** The map order of `userTopRated` lists its keys once each. */
  lemma OrderListsUsers(s: seq<Interaction>)
    ensures NoDuplicates(Dedup(UserIds(s)))
    ensures forall u :: u in Dedup(UserIds(s)) <==> u in TopRated(s)
  {
  }

  /** A user has a list exactly when one of the interactions is theirs. */
  lemma TopRatedKeys(s: seq<Interaction>, u: Id)
    ensures u in TopRated(s) <==> exists i :: 0 <= i < |s| && s[i].userId == u
  {
    if u in TopRated(s) {
      var i :| 0 <= i < |UserIds(s)| && UserIds(s)[i] == u;
    }
  }

  /** Every interaction lands in its own user's list. */
  lemma TopRatedHoldsOwn(s: seq<Interaction>, i: nat)
    requires i < |s|
    ensures s[i].userId in TopRated(s) && s[i] in TopRated(s)[s[i].userId]
  {
    var u := s[i].userId;
    assert UserIds(s)[i] == u;
    var own := OfUser(s, u);
    assert s[i] in own;
    assert s[i] in multiset(TopRated(s)[u]);
  }

  /** A user's list holds only that user's interactions. */
  lemma TopRatedOnlyOwn(s: seq<Interaction>, u: Id, it: Interaction)
    requires u in TopRated(s) && it in TopRated(s)[u]
    ensures it.userId == u && it in s
  {
    assert it in multiset(TopRated(s)[u]);
    assert it in OfUser(s, u);
  }

  /** An interaction whose rating and timestamp are numbers. */
  predicate Numeric(it: Interaction) {
    !it.rating.NaN? && it.timestamp.Some?
  }

  lemma NumberLeIsOrder()
    ensures forall x: JsNumber, y: JsNumber :: !x.NaN? && !y.NaN? ==> NumberLe(x, y) || NumberLe(y, x)
    ensures forall x: JsNumber, y: JsNumber :: NumberLe(x, y) && NumberLe(y, x) ==> x == y
    ensures forall x: JsNumber, y: JsNumber, z: JsNumber :: NumberLe(x, y) && NumberLe(y, z) ==> NumberLe(x, z)
  {
  }

  lemma RatedBeforeIsConsistent(domain: set<Interaction>)
    requires forall it :: it in domain ==> Numeric(it)
    ensures TotalPreorderOn(RatedBefore, domain)
  {
    NumberLeIsOrder();
  }

  /** Highest rating first; among equal ratings, newest first. */
  predicate RatingOrdered(list: seq<Interaction>) {
    forall i, j :: 0 <= i < j < |list| ==>
      && NumberLe(list[j].rating, list[i].rating)
      && (list[i].rating == list[j].rating ==> IdLe(list[j].timestamp, list[i].timestamp))
  }

  /** With numeric ratings and timestamps, each user's list is sorted by
      rating, highest first, and equal ratings by timestamp, newest first. */
  lemma TopRatedSorted(s: seq<Interaction>, u: Id)
    requires u in TopRated(s)
    requires forall i :: 0 <= i < |s| ==> Numeric(s[i])
    ensures RatingOrdered(TopRated(s)[u])
  {
    var own := OfUser(s, u);
    TopRatedEntry(s, u);
    OwnNumeric(s, u);
    SortByRatingIsSorted(own);
    var list := SortBy(own, RatedBefore);
    forall it | it in list ensures Numeric(it) {
      assert it in multiset(list);
    }
    SortedMeans(list);
  }

  lemma TopRatedEntry(s: seq<Interaction>, u: Id)
    requires u in TopRated(s)
    ensures TopRated(s)[u] == SortBy(OfUser(s, u), RatedBefore)
  {
  }

  lemma OwnNumeric(s: seq<Interaction>, u: Id)
    requires forall i :: 0 <= i < |s| ==> Numeric(s[i])
    ensures forall it :: it in Elements(OfUser(s, u)) ==> Numeric(it)
  {
    forall it | it in Elements(OfUser(s, u)) ensures Numeric(it) {
      var k :| 0 <= k < |s| && s[k] == it;
    }
  }

  lemma SortByRatingIsSorted(own: seq<Interaction>)
    requires forall it :: it in Elements(own) ==> Numeric(it)
    ensures SortedBy(SortBy(own, RatedBefore), RatedBefore)
  {
    RatedBeforeIsConsistent(Elements(own));
    SortByIsSorted(own, RatedBefore);
  }

  lemma SortedMeans(list: seq<Interaction>)
    requires SortedBy(list, RatedBefore)
    requires forall it :: it in list ==> Numeric(it)
    ensures RatingOrdered(list)
  {
    forall i, j | 0 <= i < j < |list|
      ensures NumberLe(list[j].rating, list[i].rating)
      ensures list[i].rating == list[j].rating ==> IdLe(list[j].timestamp, list[i].timestamp)
    {
      RatedBeforeMeans(list[i], list[j]);
    }
  }

  /** What the comparator lets through, for numeric interactions. */
  lemma RatedBeforeMeans(a: Interaction, b: Interaction)
    requires Numeric(a) && Numeric(b) && RatedBefore(a, b)
    ensures NumberLe(b.rating, a.rating)
    ensures a.rating == b.rating ==> IdLe(b.timestamp, a.timestamp)
  {
    if a.rating == b.rating {
      NumberLeIsOrder();
    }
  }

  // ----------------------------------------------------- findQualifiedUsers

  /** The users, in map order, with at least 20 interactions. */
  function Qualified(order: seq<Id>, top: map<Id, seq<Interaction>>): (r: seq<Id>)
    requires forall u :: u in order ==> u in top
    ensures forall u :: u in r <==> u in order && |top[u]| >= QualifyingCount
    ensures NoDuplicates(order) ==> NoDuplicates(r)
  {
    if order == [] then []
    else
      var init := order[..|order| - 1];
      var last := order[|order| - 1];
      assert forall u :: u in order <==> u in init || u == last;
      Qualified(init, top) + (if |top[last]| >= QualifyingCount then [last] else [])
  }

  /** `qualifiedUsers` lists exactly the users with at least 20 loaded
      interactions, each once. */
  lemma QualifiedUsersHaveTwenty(s: seq<Interaction>)
    ensures forall u :: u in Qualified(Dedup(UserIds(s)), TopRated(s)) <==>
      u in UserIds(s) && |OfUser(s, u)| >= QualifyingCount
    ensures NoDuplicates(Qualified(Dedup(UserIds(s)), TopRated(s)))
  {
  }

  // ------------------------------------------------------------- loadData

  /** The tables the `u.item` loop fills: the shared `items` map, the local
      primary-genre map, and whether every line could be read. */
  datatype ItemTables = ItemTables(items: map<Id, Movie>, itemGenres: map<Id, nat>, complete: bool)

  /** Each `u.item` line read on its own. */
  function ItemLines(lines: seq<string>, genres: map<Id, string>): (entries: seq<Option<ItemEntry>>)
    ensures |entries| == |lines|
  {
    seq(|lines|, k requires 0 <= k < |lines| => ItemLine(lines[k], genres))
  }

  lemma ItemLinesAt(lines: seq<string>, genres: map<Id, string>, k: nat)
    requires k < |lines|
    ensures ItemLines(lines, genres)[k] == ItemLine(lines[k], genres)
  {
  }

  /** The `itemsLines.forEach` loop: each line `set`s its movie and primary
      genre; the first line without a title throws, and the lines after it
      are not read. */
  function SetItems(items: map<Id, Movie>, entries: seq<Option<ItemEntry>>): ItemTables {
    if entries == [] then ItemTables(items, map[], true)
    else
      var before := SetItems(items, entries[..|entries| - 1]);
      if !before.complete then before
      else
        match entries[|entries| - 1]
        case None => ItemTables(before.items, before.itemGenres, false)
        case Some(e) => ItemTables(before.items[e.id := e.movie], before.itemGenres[e.id := e.primaryGenre], true)
  }

  lemma SetItemsSnoc(items: map<Id, Movie>, entries: seq<Option<ItemEntry>>, i: nat)
    requires i < |entries|
    requires SetItems(items, entries[..i]).complete
    ensures var before := SetItems(items, entries[..i]);
      SetItems(items, entries[..i + 1]) ==
        match entries[i]
        case None => ItemTables(before.items, before.itemGenres, false)
        case Some(e) => ItemTables(before.items[e.id := e.movie], before.itemGenres[e.id := e.primaryGenre], true)
  {
    assert entries[..i + 1][..i] == entries[..i];
  }

  /** Once a line has thrown, later lines change nothing. */
  lemma {:induction false} SetItemsStops(items: map<Id, Movie>, entries: seq<Option<ItemEntry>>, k: nat)
    requires k <= |entries|
    requires !SetItems(items, entries[..k]).complete
    ensures SetItems(items, entries) == SetItems(items, entries[..k])
  {
    if k < |entries| {
      assert entries[..|entries| - 1][..k] == entries[..k];
      SetItemsStops(items, entries[..|entries| - 1], k);
    } else {
      assert entries[..k] == entries;
    }
  }

  /** `this.userMap.get(i.userId)` for each interaction, paired with its
      genre: the inputs of the training batches. */
  function TrainingPairs(s: seq<Interaction>, userMap: map<Id, nat>): (pairs: seq<(Option<nat>, nat)>)
    ensures |pairs| == |s|
  {
    seq(|s|, i requires 0 <= i < |s| =>
      (if s[i].userId in userMap then Some(userMap[s[i].userId]) else None, s[i].genreId))
  }

  /** After `createMappings`, every interaction's user has an index, below
      the number of distinct users loaded. */
  lemma TrainingUsersIndexed(s: seq<Interaction>, base: map<Id, nat>)
    ensures var order := Dedup(UserIds(s));
      forall i :: 0 <= i < |s| ==>
        var p := TrainingPairs(s, base + IndexMap(order))[i];
        p.0.Some? && p.0.value < |order| && order[p.0.value] == s[i].userId && p.1 == s[i].genreId
  {
    var order := Dedup(UserIds(s));
    forall i | 0 <= i < |s| ensures s[i].userId in order {
      assert UserIds(s)[i] == s[i].userId;
    }
  }

  // ------------------------------------------------------------------ test

  datatype Candidate = Candidate(itemId: Option<Id>, score: real, itemIndex: nat)

  /** `new Set(userInteractions.map(i => i.itemId))`. */
  function RatedItems(list: seq<Interaction>): set<Id> {
    set it | it in list :: it.itemId
  }

  /** `reverseItemMap.get(itemIndex)`; `None` is `undefined`, which no
      rated-item set contains. */
  function ItemAt(reverseItemMap: map<nat, Id>, index: nat): Option<Id> {
    if index in reverseItemMap then Some(reverseItemMap[index]) else None
  }

  predicate Unrated(itemId: Option<Id>, rated: set<Id>) {
    itemId.None? || itemId.value !in rated
  }

  /** The `allItemScores.forEach` loop: every index whose item the user has
      not rated, with its score, in index order. */
  function CandidateScores(scores: seq<real>, reverseItemMap: map<nat, Id>, rated: set<Id>): (r: seq<Candidate>)
    ensures forall c :: c in r <==>
      && c.itemIndex < |scores| && c.score == scores[c.itemIndex]
      && c.itemId == ItemAt(reverseItemMap, c.itemIndex) && Unrated(c.itemId, rated)
  {
    if scores == [] then []
    else
      var last := |scores| - 1;
      var c := Candidate(ItemAt(reverseItemMap, last), scores[last], last);
      CandidateScores(scores[..last], reverseItemMap, rated) + (if Unrated(c.itemId, rated) then [c] else [])
  }

  /** The comparator `(a, b) => b.score - a.score`. */
  predicate ScoreAtLeast(a: Candidate, b: Candidate) {
    a.score >= b.score
  }

  /** `candidateScores.sort(...).slice(0, 10)`. */
  function TopUnrated(scores: seq<real>, reverseItemMap: map<nat, Id>, userInteractions: seq<Interaction>): seq<Candidate> {
    Take(SortBy(CandidateScores(scores, reverseItemMap, RatedItems(userInteractions)), ScoreAtLeast), RecommendationCount)
  }

  /** The recommendations are at most ten items the user has not rated,
      each with its own score, best first, and no unrated item left out
      scores higher than one that was kept. */
  lemma TopUnratedSelection(scores: seq<real>, reverseItemMap: map<nat, Id>, userInteractions: seq<Interaction>)
    ensures var r := TopUnrated(scores, reverseItemMap, userInteractions);
      var rated := RatedItems(userInteractions);
      var candidates := CandidateScores(scores, reverseItemMap, rated);
      && |r| == (if |candidates| < RecommendationCount then |candidates| else RecommendationCount)
      && multiset(r) <= multiset(candidates)
      && (forall i, j :: 0 <= i < j < |r| ==> r[i].score >= r[j].score)
      && (forall i :: 0 <= i < |r| ==>
            && r[i].itemIndex < |scores| && r[i].score == scores[r[i].itemIndex]
            && r[i].itemId == ItemAt(reverseItemMap, r[i].itemIndex)
            && Unrated(r[i].itemId, rated))
      && (forall k ::
            (&& 0 <= k < |scores| && Unrated(ItemAt(reverseItemMap, k), rated)
             && (forall i :: 0 <= i < |r| ==> r[i].itemIndex != k)) ==>
            forall i :: 0 <= i < |r| ==> r[i].score >= scores[k])
  {
    var rated := RatedItems(userInteractions);
    var candidates := CandidateScores(scores, reverseItemMap, rated);
    var r := TopUnrated(scores, reverseItemMap, userInteractions);
    ScoreAtLeastIsTotal(Elements(candidates));
    TopK(candidates, ScoreAtLeast, RecommendationCount);
    UnratedLeftOutNoHigher(scores, reverseItemMap, rated, r);
  }

  lemma ScoreAtLeastIsTotal(domain: set<Candidate>)
    ensures TotalPreorderOn(ScoreAtLeast, domain)
  {
  }

  /** An unrated index that no kept candidate carries scores no higher than
      any kept one, once every candidate left out does. */
  lemma UnratedLeftOutNoHigher(scores: seq<real>, reverseItemMap: map<nat, Id>, rated: set<Id>, r: seq<Candidate>)
    requires forall x :: x in CandidateScores(scores, reverseItemMap, rated) && x !in r ==>
      forall i :: 0 <= i < |r| ==> ScoreAtLeast(r[i], x)
    ensures forall k ::
      (&& 0 <= k < |scores| && Unrated(ItemAt(reverseItemMap, k), rated)
       && (forall i :: 0 <= i < |r| ==> r[i].itemIndex != k)) ==>
      forall i :: 0 <= i < |r| ==> r[i].score >= scores[k]
  {
    var candidates := CandidateScores(scores, reverseItemMap, rated);
    forall k | 0 <= k < |scores| && Unrated(ItemAt(reverseItemMap, k), rated) &&
        (forall i :: 0 <= i < |r| ==> r[i].itemIndex != k)
      ensures forall i :: 0 <= i < |r| ==> r[i].score >= scores[k]
    {
      var c := Candidate(ItemAt(reverseItemMap, k), scores[k], k);
      assert c in candidates;
      assert c !in r;
    }
  }

  /** The `genresLines.forEach` loop. */
  method ApplyGenres(genres: map<Id, string>, lines: seq<string>) returns (g: map<Id, string>)
    ensures g == SetGenres(genres, lines)
  {
    g := genres;
    var i := 0;
    while i < |lines|
      invariant 0 <= i <= |lines|
      invariant g == SetGenres(genres, lines[..i])
    {
      assert lines[..i + 1][..i] == lines[..i];
      match GenreEntry(lines[i]) {
        case None =>
        case Some((id, name)) => g := g[id := name];
      }
      i := i + 1;
    }
    assert lines[..|lines|] == lines;
  }

  /** The `itemsLines.forEach` loop, stopping at the first line that throws. */
  method ApplyItems(items: map<Id, Movie>, lines: seq<string>, genres: map<Id, string>) returns (t: ItemTables)
    ensures t == SetItems(items, ItemLines(lines, genres))
  {
    ghost var entries := ItemLines(lines, genres);
    var its := items;
    var itemGenres: map<Id, nat> := map[];
    var i := 0;
    while i < |lines|
      invariant 0 <= i <= |lines|
      invariant SetItems(items, entries[..i]) == ItemTables(its, itemGenres, true)
    {
      var entry := ItemLine(lines[i], genres);
      ApplyItemsStep(items, lines, genres, i, its, itemGenres);
      match entry {
        case None =>
          return ItemTables(its, itemGenres, false);
        case Some(e) =>
          its := its[e.id := e.movie];
          itemGenres := itemGenres[e.id := e.primaryGenre];
      }
      i := i + 1;
    }
    assert entries[..|entries|] == entries;
    t := ItemTables(its, itemGenres, true);
  }

  /** One line of the `itemsLines.forEach` loop: a line that throws ends the
      loading with the tables as they are, any other line `set`s its entry. */
  lemma ApplyItemsStep(items: map<Id, Movie>, lines: seq<string>, genres: map<Id, string>, i: nat,
                       its: map<Id, Movie>, itemGenres: map<Id, nat>)
    requires i < |lines|
    requires SetItems(items, ItemLines(lines, genres)[..i]) == ItemTables(its, itemGenres, true)
    ensures match ItemLine(lines[i], genres)
      case None => SetItems(items, ItemLines(lines, genres)) == ItemTables(its, itemGenres, false)
      case Some(e) =>
        SetItems(items, ItemLines(lines, genres)[..i + 1])
          == ItemTables(its[e.id := e.movie], itemGenres[e.id := e.primaryGenre], true)
  {
    var entries := ItemLines(lines, genres);
    SetItemsSnoc(items, entries, i);
    ItemLinesAt(lines, genres, i);
    if ItemLine(lines[i], genres).None? {
      SetItemsStops(items, entries, i + 1);
    }
  }

  /** Why `test` shows no recommendations: the model is missing or no user
      qualifies, or `displayResults` threw (the page then reports
      "Error generating recommendations"). */
  datatype TestError = NotReady | DisplayFailed

  /** How many of the user's own ratings `displayResults` lists. */
  const ShownRatedCount := 10

  /** `'★'.repeat(Math.round(rating)) + '☆'.repeat(5 - Math.round(rating))`
      does not throw: `repeat` refuses a negative or infinite count, and a
      NaN count is 0. `Math.round(v)` is the floor of `v + 0.5`. */
  predicate StarsShowable(rating: JsNumber) {
    rating.NaN? || (rating.Num? && 0 <= (rating.value + 0.5).Floor <= 5)
  }

  /** `displayResults` reads `item.genres` of `items.get(itemId)` for each of
      the first ten rated interactions and for each recommendation, and
      draws stars for each of those ratings; it finishes exactly when every
      looked-up item exists and every star count is valid. */
  predicate Showable(items: map<Id, Movie>, userInteractions: seq<Interaction>, recommendations: seq<Candidate>) {
    && (forall i :: 0 <= i < |userInteractions| && i < ShownRatedCount ==>
          userInteractions[i].itemId in items && StarsShowable(userInteractions[i].rating))
    && (forall i :: 0 <= i < |recommendations| ==>
          recommendations[i].itemId.Some? && recommendations[i].itemId.value in items)
  }

  /** The display cannot fail when every indexed item is listed in `items` and
      the user's ratings are listed items with star-drawable ratings. */
  lemma ShowableWhenListed(items: map<Id, Movie>, scores: seq<real>, reverseItemMap: map<nat, Id>, userInteractions: seq<Interaction>)
    requires forall k :: 0 <= k < |scores| ==> k in reverseItemMap && reverseItemMap[k] in items
    requires forall x :: x in userInteractions ==> x.itemId in items && StarsShowable(x.rating)
    ensures Showable(items, userInteractions, TopUnrated(scores, reverseItemMap, userInteractions))
  {
    TopUnratedSelection(scores, reverseItemMap, userInteractions);
    var r := TopUnrated(scores, reverseItemMap, userInteractions);
    forall i | 0 <= i < |r|
      ensures r[i].itemId.Some? && r[i].itemId.value in items
    {
      assert r[i].itemId == ItemAt(reverseItemMap, r[i].itemIndex);
    }
    forall i | 0 <= i < |userInteractions| && i < ShownRatedCount
      ensures userInteractions[i].itemId in items && StarsShowable(userInteractions[i].rating)
    {
      assert userInteractions[i] in userInteractions;
    }
  }

  /** A rating of 5.5 or more, or below -0.5, makes a star count negative. */
  lemma HighRatingNotShowable(v: real)
    requires v >= 5.5 || v < -0.5
    ensures !StarsShowable(Num(v))
  {
  }

  // -------------------------------------------------------------- the app

  class MovieLensApp {
    var interactions: seq<Interaction>
    var items: map<Id, Movie>
    var genres: map<Id, string>
    var userMap: map<Id, nat>
    var itemMap: map<Id, nat>
    var reverseUserMap: map<nat, Id>
    var reverseItemMap: map<nat, Id>
    var userTopRated: map<Id, seq<Interaction>>
    /** The iteration order of `userTopRated`. */
    var userOrder: seq<Id>
    var qualifiedUsers: seq<Id>

    /** `userOrder` lists the keys of `userTopRated` once each. */
    ghost predicate Valid()
      reads this
    {
      && NoDuplicates(userOrder)
      && (forall u :: u in userOrder <==> u in userTopRated)
    }

    constructor()
      ensures interactions == [] && items == map[] && genres == map[]
      ensures userMap == map[] && itemMap == map[] && reverseUserMap == map[] && reverseItemMap == map[]
      ensures userTopRated == map[] && userOrder == [] && qualifiedUsers == []
      ensures Valid()
    {
      interactions, items, genres := [], map[], map[];
      userMap, itemMap, reverseUserMap, reverseItemMap := map[], map[], map[], map[];
      userTopRated, userOrder, qualifiedUsers := map[], [], [];
    }

    /** `loadData` on the lines of the three files (`Lines` of each
        file's text): the tables are read, then
        `createMappings` and `findQualifiedUsers` run. Genres and movies are
        added to the maps already present. A `u.item` line without a title
        aborts the load after the genres and the movies before it were
        stored. */
    method LoadData(genreLines: seq<string>, itemLines: seq<string>, interactionLines: seq<string>) returns (loaded: bool)
      modifies this
      ensures genres == SetGenres(old(genres), genreLines)
      ensures var t := SetItems(old(items), ItemLines(itemLines, genres));
        && items == t.items && loaded == t.complete
        && (loaded ==> interactions == Interactions(interactionLines, t.itemGenres))
      ensures !loaded ==>
        && interactions == old(interactions) && qualifiedUsers == old(qualifiedUsers)
        && userMap == old(userMap) && itemMap == old(itemMap) && userTopRated == old(userTopRated)
        && reverseUserMap == old(reverseUserMap) && reverseItemMap == old(reverseItemMap)
        && userOrder == old(userOrder)
      ensures loaded ==>
        && userMap == old(userMap) + IndexMap(Dedup(UserIds(interactions)))
        && reverseUserMap == old(reverseUserMap) + ReverseMap(Dedup(UserIds(interactions)))
        && itemMap == old(itemMap) + IndexMap(Dedup(ItemIds(interactions)))
        && reverseItemMap == old(reverseItemMap) + ReverseMap(Dedup(ItemIds(interactions)))
        && userTopRated == TopRated(interactions)
        && userOrder == Dedup(UserIds(interactions))
        && qualifiedUsers == Qualified(Dedup(UserIds(interactions)), TopRated(interactions))
        && Valid()
    {
      var itemGenres, complete := LoadGenresAndItems(genreLines, itemLines);
      if !complete {
        return false;
      }
      interactions := Interactions(interactionLines, itemGenres);
      CreateMappings();
      FindQualifiedUsers();
      loaded := true;
    }

    /** The `u.genre` and `u.item` part of `loadData`. */
    method LoadGenresAndItems(genreLines: seq<string>, itemLines: seq<string>) returns (itemGenres: map<Id, nat>, complete: bool)
      modifies this`genres, this`items
      ensures genres == SetGenres(old(genres), genreLines)
      ensures SetItems(old(items), ItemLines(itemLines, genres)) == ItemTables(items, itemGenres, complete)
    {
      genres := ApplyGenres(genres, genreLines);
      var t := ApplyItems(items, itemLines, genres);
      items, itemGenres, complete := t.items, t.itemGenres, t.complete;
    }

    /** `createMappings`: dense indices for users and items in order of first
        appearance, and each user's interactions, best rated first. */
    method CreateMappings()
      modifies this`userMap, this`reverseUserMap, this`itemMap, this`reverseItemMap
      modifies this`userTopRated, this`userOrder
      ensures userMap == old(userMap) + IndexMap(Dedup(UserIds(interactions)))
      ensures reverseUserMap == old(reverseUserMap) + ReverseMap(Dedup(UserIds(interactions)))
      ensures itemMap == old(itemMap) + IndexMap(Dedup(ItemIds(interactions)))
      ensures reverseItemMap == old(reverseItemMap) + ReverseMap(Dedup(ItemIds(interactions)))
      ensures userTopRated == TopRated(interactions)
      ensures userOrder == Dedup(UserIds(interactions))
      ensures Valid()
    {
      IndexUsersAndItems();
      GroupUsers();
    }

    /** The two index loops of `createMappings`. */
    method IndexUsersAndItems()
      modifies this`userMap, this`reverseUserMap, this`itemMap, this`reverseItemMap
      ensures userMap == old(userMap) + IndexMap(Dedup(UserIds(interactions)))
      ensures reverseUserMap == old(reverseUserMap) + ReverseMap(Dedup(UserIds(interactions)))
      ensures itemMap == old(itemMap) + IndexMap(Dedup(ItemIds(interactions)))
      ensures reverseItemMap == old(reverseItemMap) + ReverseMap(Dedup(ItemIds(interactions)))
    {
      userMap, reverseUserMap := AssignIndices(Dedup(UserIds(interactions)), userMap, reverseUserMap);
      itemMap, reverseItemMap := AssignIndices(Dedup(ItemIds(interactions)), itemMap, reverseItemMap);
    }

    /** The grouping and sorting part of `createMappings`. */
    method GroupUsers()
      modifies this`userTopRated, this`userOrder
      ensures userTopRated == TopRated(interactions)
      ensures userOrder == Dedup(UserIds(interactions))
      ensures Valid()
    {
      userTopRated := GroupAndSort(interactions);
      userOrder := Dedup(UserIds(interactions));
      OrderListsUsers(interactions);
    }

    /** `findQualifiedUsers`: the users, in map order, with at least 20
        interactions. */
    method FindQualifiedUsers()
      modifies this`qualifiedUsers
      requires Valid()
      ensures Valid()
      ensures qualifiedUsers == Qualified(userOrder, userTopRated)
    {
      var qualified := [];
      var i := 0;
      while i < |userOrder|
        invariant 0 <= i <= |userOrder|
        invariant qualified == Qualified(userOrder[..i], userTopRated)
      {
        assert userOrder[..i + 1][..i] == userOrder[..i];
        var u := userOrder[i];
        if |userTopRated[u]| >= QualifyingCount {
          qualified := qualified + [u];
        }
        i := i + 1;
      }
      assert userOrder[..|userOrder|] == userOrder;
      qualifiedUsers := qualified;
    }

    /** The batches of `train`: `(userIndex, genreId)` pairs. */
    method TrainingBatches() returns (batches: seq<seq<(Option<nat>, nat)>>)
      ensures Batching.Flatten(batches) == TrainingPairs(interactions, userMap)
      ensures |batches| == Batching.NumBatches(|interactions|, BatchSize)
      ensures forall b :: 0 <= b < |batches| ==> 0 < |batches[b]| <= BatchSize
    {
      batches := Batching.Batches(TrainingPairs(interactions, userMap), BatchSize);
    }

    /** `test` for the qualified user at position `pick` (the random draw)
        and the model's scores for every item. It refuses when the model is
        not trained or no user qualifies, and fails when `displayResults`
        throws. */
    function Test(trained: bool, pick: nat, scores: seq<real>): (r: Result<(Id, seq<Candidate>), TestError>)
      reads this
      requires forall u :: u in qualifiedUsers ==> u in userTopRated
      requires qualifiedUsers != [] ==> pick < |qualifiedUsers|
      ensures r == Err(NotReady) <==> !trained || qualifiedUsers == []
      ensures r == Err(DisplayFailed) <==>
        && trained && qualifiedUsers != []
        && !Showable(items, userTopRated[qualifiedUsers[pick]],
                     TopUnrated(scores, reverseItemMap, userTopRated[qualifiedUsers[pick]]))
      ensures r.Ok? ==>
        && r.value.0 == qualifiedUsers[pick] && r.value.0 in userTopRated
        && r.value.1 == TopUnrated(scores, reverseItemMap, userTopRated[r.value.0])
        && Showable(items, userTopRated[r.value.0], r.value.1)
    {
      if !trained || qualifiedUsers == [] then Err(NotReady)
      else
        var user := qualifiedUsers[pick];
        var recommendations := TopUnrated(scores, reverseItemMap, userTopRated[user]);
        if Showable(items, userTopRated[user], recommendations) then Ok((user, recommendations))
        else Err(DisplayFailed)
    }
  }
}
