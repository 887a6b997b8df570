/** The data side of the car recommender (`Midterm/app.js`): the CSV parser
    `parseCarData`, which interns each `name_year` key to a car id and turns
    every accepted row into an interaction of a user of its own; the batch
    slicing of `trainModel`; and the top-10 selection of
    `testRecommendation`. The tables are the page's globals, fields of
    `CarApp`; the two id counters are local to one parse, so a second load
    starts them from 0 again while the tables keep what they held. */
module CarRecommender {
  import opened Wrappers
  import opened Collections
  import opened Text
  import Batching

  const MaxInteractions: nat := 80000
  const BatchSize: nat := 64
  const RecommendationCount: nat := 10
  /** `fields.length < 9` rejects a row. */
  const FieldCount: nat := 9

  /** An entry of `cars`: `{ name, year }`. */
  datatype Car = Car(name: string, year: int)

  /** `{ userId, carId, rating: sellingPrice, ts }`. */
  datatype CarInteraction = CarInteraction(userId: nat, carId: nat, rating: JsNumber, ts: int)

  /** What an accepted row contributes: its trimmed name, its year and its
      selling price (never NaN). */
  datatype CarRow = CarRow(name: string, year: int, sellingPrice: JsNumber)

  /** `csvText.trim().split('\n')`. */
  function Lines(text: string): seq<string> {
    Split(Trim(text), '\n')
  }

  /** The first line is a header when its first field contains `car_name`,
      whatever the case of its letters. */
  predicate IsHeader(line: string) {
    Contains(ToLower(Split(line, ',')[0]), "car_name")
  }

  /** The lines after `lines.shift()` of a header. */
  function DataRows(lines: seq<string>): (rows: seq<string>)
    requires |lines| > 0
    ensures IsHeader(lines[0]) ==> rows == lines[1..]
    ensures !IsHeader(lines[0]) ==> rows == lines
  {
    if IsHeader(lines[0]) then lines[1..] else lines
  }

  /** One CSV row: accepted when it has at least 9 fields and its year,
      selling price, present price and kilometres all parse (are not NaN). */
  function ParseRow(line: string): (r: Option<CarRow>)
    ensures var fields := Split(line, ',');
      r.Some? <==>
        && |fields| >= FieldCount
        && ParseInt(fields[1], Decimal).Some? && ParseFloat(fields[2]) != NaN
        && ParseFloat(fields[3]) != NaN && ParseInt(fields[4], Decimal).Some?
    ensures var fields := Split(line, ',');
      r.Some? ==>
        && r.value.name == Trim(fields[0])
        && ParseInt(fields[1], Decimal) == Some(r.value.year)
        && r.value.sellingPrice == ParseFloat(fields[2]) && r.value.sellingPrice != NaN
  {
    var fields := Split(line, ',');
    if |fields| < FieldCount then None
    else
      var year := ParseInt(fields[1], Decimal);
      var sellingPrice := ParseFloat(fields[2]);
      var presentPrice := ParseFloat(fields[3]);
      var kms := ParseInt(fields[4], Decimal);
      if year.None? || sellingPrice.NaN? || presentPrice.NaN? || kms.None? then None
      else Some(CarRow(Trim(fields[0]), year.value, sellingPrice))
  }

  /** `${carName}_${year}`. */
  function Key(name: string, year: int): string {
    name + "_" + DecimalString(year)
  }

  /** The rendering of an integer has no underscore. */
  lemma DecimalStringHasNoUnderscore(n: int)
    ensures '_' !in DecimalString(n)
  {
    var m := if n < 0 then -n else n;
    var digits := NatString(m);
    assert forall i :: 0 <= i < |digits| ==> digits[i] != '_';
  }

  /** The length of the longest suffix of `s` without an underscore. */
  function TrailingRun(s: string): (n: nat)
    ensures n <= |s|
  {
    if s == [] || s[|s| - 1] == '_' then 0 else 1 + TrailingRun(s[..|s| - 1])
  }

  /** In `name_digits`, the digits are exactly the suffix without an
      underscore, whatever the name holds. */
  lemma {:induction false} TrailingRunOfKey(name: string, digits: string)
    requires '_' !in digits
    ensures TrailingRun(name + "_" + digits) == |digits|
    decreases |digits|
  {
    var s := name + "_" + digits;
    if digits != [] {
      var init := digits[..|digits| - 1];
      assert s[..|s| - 1] == name + "_" + init;
      assert digits[|digits| - 1] in digits;
      TrailingRunOfKey(name, init);
    }
  }

  /** Different cars have different keys: the year is what follows the
      last underscore, and the name is what precedes it. */
  lemma KeyInjective(name1: string, year1: int, name2: string, year2: int)
    requires Key(name1, year1) == Key(name2, year2)
    ensures name1 == name2 && year1 == year2
  {
    var d1, d2 := DecimalString(year1), DecimalString(year2);
    var k := Key(name1, year1);
    DecimalStringHasNoUnderscore(year1);
    DecimalStringHasNoUnderscore(year2);
    TrailingRunOfKey(name1, d1);
    TrailingRunOfKey(name2, d2);
    assert d1 == k[|k| - |d1|..] == d2;
    assert name1 == k[..|name1|] == name2;
    ParseIntDecimalString(year1, Decimal);
    ParseIntDecimalString(year2, Decimal);
  }

  // ------------------------------------------------------------ parseCarData

  /** The globals `parseCarData` fills, with its two local counters. A
      JavaScript array assigned by index (`reverseCarIndex[carId] = ...`) is
      a map from indices. */
  datatype ParseState = ParseState(
    interactions: seq<CarInteraction>,
    cars: map<nat, Car>,
    userToCars: map<nat, set<nat>>,
    carIndexer: map<string, nat>,
    userIndexer: map<nat, nat>,
    reverseCarIndex: map<nat, string>,
    reverseUserIndex: map<nat, nat>,
    carIdCounter: nat,
    userIdCounter: nat)

  /** The globals as the page starts them. */
  const Initial := ParseState([], map[], map[], map[], map[], map[], map[], 0, 0)

  /** The car id of a key: the interned one, or the next counter value. */
  function CarIdOf(st: ParseState, key: string): nat {
    if key in st.carIndexer then st.carIndexer[key] else st.carIdCounter
  }

  /** The car part of an accepted row: a new key is interned under the
      next id, with its car and its reverse entry. */
  function Intern(st: ParseState, name: string, year: int): ParseState {
    var key := Key(name, year);
    if key in st.carIndexer then st
    else
      var c := st.carIdCounter;
      st.(carIndexer := st.carIndexer[key := c], cars := st.cars[c := Car(name, year)],
          reverseCarIndex := st.reverseCarIndex[c := key], carIdCounter := c + 1)
  }

  /** The user part: the row becomes user `userIdCounter`, its interaction
      is pushed, and the car is added to the user's set. */
  function AddUser(st: ParseState, carId: nat, rating: JsNumber, ts: int): ParseState {
    var u := st.userIdCounter;
    var own := if u in st.userToCars then st.userToCars[u] else {};
    st.(userIdCounter := u + 1,
        userIndexer := st.userIndexer[u := u],
        reverseUserIndex := st.reverseUserIndex[u := u],
        interactions := st.interactions + [CarInteraction(u, carId, rating, ts)],
        userToCars := st.userToCars[u := own + {carId}])
  }

  /** One accepted row, its interaction pushed with the clock reading `ts`. */
  function AddRow(st: ParseState, row: CarRow, ts: int): (r: ParseState)
    ensures |r.interactions| == |st.interactions| + 1
    ensures r.interactions[..|st.interactions|] == st.interactions
    ensures r.interactions[|st.interactions|]
      == CarInteraction(st.userIdCounter, CarIdOf(st, Key(row.name, row.year)), row.sellingPrice, ts)
  {
    AddUser(Intern(st, row.name, row.year), CarIdOf(st, Key(row.name, row.year)), row.sellingPrice, ts)
  }

  /** Each line parsed on its own. */
  function ParsedRows(lines: seq<string>): (entries: seq<Option<CarRow>>)
    ensures |entries| == |lines|
  {
    seq(|lines|, i requires 0 <= i < |lines| => ParseRow(lines[i]))
  }

  lemma ParsedRowsAt(lines: seq<string>, i: nat)
    requires i < |lines|
    ensures ParsedRows(lines)[i] == ParseRow(lines[i])
  {
  }

  /** The `for (const line of lines)` loop over the parsed lines: rejected
      rows are skipped, and the loop ends after the row that brings the
      interactions to 80000. `clock(k)` is what `Date.now()` returns for the
      row that becomes user `k`. */
  function ParseRows(st: ParseState, rows: seq<Option<CarRow>>, clock: nat -> int): ParseState
    decreases |rows|
  {
    if rows == [] then st
    else
      match rows[0]
      case None => ParseRows(st, rows[1..], clock)
      case Some(row) =>
        var next := AddRow(st, row, clock(st.userIdCounter));
        if |next.interactions| >= MaxInteractions then next else ParseRows(next, rows[1..], clock)
  }

  /** The loop's step at row `i`. */
  lemma ParseRowsAt(st: ParseState, rows: seq<Option<CarRow>>, i: nat, clock: nat -> int)
    requires i < |rows|
    ensures ParseRows(st, rows[i..], clock) ==
      match rows[i]
      case None => ParseRows(st, rows[i + 1..], clock)
      case Some(row) =>
        var next := AddRow(st, row, clock(st.userIdCounter));
        if |next.interactions| >= MaxInteractions then next else ParseRows(next, rows[i + 1..], clock)
  {
    assert rows[i..][0] == rows[i];
    assert rows[i..][1..] == rows[i + 1..];
  }

  /** The accepted rows, in order. */
  function Accepted(rows: seq<Option<CarRow>>): (r: seq<CarRow>)
    ensures |r| <= |rows|
  {
    if rows == [] then []
    else
      match rows[0]
      case None => Accepted(rows[1..])
      case Some(row) => [row] + Accepted(rows[1..])
  }

  /** The car tables agree with each other: the ids handed out are
      `0 .. carIdCounter - 1`, each the id of exactly one key, that key being
      the `name_year` of the car stored under it. */
  ghost predicate CarsConsistent(st: ParseState) {
    && (forall c: nat :: c in st.cars <==> c < st.carIdCounter)
    && (forall c: nat :: c in st.reverseCarIndex <==> c < st.carIdCounter)
    && (forall key :: key in st.carIndexer ==>
          st.carIndexer[key] < st.carIdCounter && st.reverseCarIndex[st.carIndexer[key]] == key)
    && (forall c: nat :: c < st.carIdCounter ==>
          && st.reverseCarIndex[c] in st.carIndexer
          && st.carIndexer[st.reverseCarIndex[c]] == c
          && st.reverseCarIndex[c] == Key(st.cars[c].name, st.cars[c].year))
  }

  /** The user tables agree with the interactions: interaction `u` is user
      `u`'s, the users are `0 .. userIdCounter - 1`, each indexed to itself,
      and each has exactly the car of its interaction. */
  ghost predicate UsersConsistent(st: ParseState) {
    && |st.interactions| == st.userIdCounter
    && (forall u: nat :: u in st.userIndexer <==> u < st.userIdCounter)
    && (forall u: nat :: u in st.reverseUserIndex <==> u < st.userIdCounter)
    && (forall u: nat :: u in st.userToCars <==> u < st.userIdCounter)
    && (forall u: nat :: u < st.userIdCounter ==>
          && st.userIndexer[u] == u && st.reverseUserIndex[u] == u
          && st.interactions[u].userId == u
          && st.interactions[u].carId < st.carIdCounter
          && st.userToCars[u] == {st.interactions[u].carId})
  }

  ghost predicate Consistent(st: ParseState) {
    CarsConsistent(st) && UsersConsistent(st)
  }

  lemma InitialConsistent()
    ensures Consistent(Initial)
  {
  }

  /** In consistent tables, the key of a row already seen leads to the car
      stored for it, and a new key gets the next id. */
  lemma CarIdOfConsistent(st: ParseState, row: CarRow)
    requires CarsConsistent(st)
    ensures var c := CarIdOf(st, Key(row.name, row.year));
      && (Key(row.name, row.year) in st.carIndexer ==> c < st.carIdCounter && st.cars[c] == Car(row.name, row.year))
      && (Key(row.name, row.year) !in st.carIndexer ==> c == st.carIdCounter)
  {
    var key := Key(row.name, row.year);
    if key in st.carIndexer {
      var c := st.carIndexer[key];
      KeyInjective(row.name, row.year, st.cars[c].name, st.cars[c].year);
    }
  }

  /** Adding a row keeps the tables consistent; the row's car is stored
      under its id, a new key taking the next id, and nothing stored for an
      earlier car changes. */
  lemma AddRowConsistent(st: ParseState, row: CarRow, ts: int)
    requires Consistent(st)
    ensures var r := AddRow(st, row, ts);
      var c := r.interactions[|st.interactions|].carId;
      && Consistent(r)
      && r.cars[c] == Car(row.name, row.year)
      && (Key(row.name, row.year) !in st.carIndexer ==> c == st.carIdCounter)
      && Keeps(st, r)
  {
    CarIdOfConsistent(st, row);
    AddRowCars(st, row, ts);
    AddRowUsers(st, row, ts);
  }

  /** The car side of a row: the car tables stay consistent, the new
      interaction's car is the row's, and nothing stored before changes. */
  lemma AddRowCars(st: ParseState, row: CarRow, ts: int)
    requires CarsConsistent(st)
    ensures var r := AddRow(st, row, ts);
      && CarsConsistent(r) && Keeps(st, r) && RecordsRow(r, |st.interactions|, row)
  {
    var key := Key(row.name, row.year);
    CarIdOfConsistent(st, row);
    if key !in st.carIndexer {
      InternConsistent(st, key, Car(row.name, row.year));
    }
  }

  /** Interning a new key under the next id keeps the car tables consistent. */
  lemma InternConsistent(st: ParseState, key: string, car: Car)
    requires CarsConsistent(st)
    requires key !in st.carIndexer && key == Key(car.name, car.year)
    ensures var c := st.carIdCounter;
      CarsConsistent(st.(carIndexer := st.carIndexer[key := c], cars := st.cars[c := car],
                         reverseCarIndex := st.reverseCarIndex[c := key], carIdCounter := c + 1))
  {
    var c := st.carIdCounter;
    var indexer, reverse := st.carIndexer[key := c], st.reverseCarIndex[c := key];
    var cars := st.cars[c := car];
    forall k | k in indexer
      ensures indexer[k] < c + 1 && reverse[indexer[k]] == k
    {
      if k != key {
        assert st.carIndexer[k] < c;
      }
    }
    forall d: nat | d < c + 1
      ensures reverse[d] in indexer && indexer[reverse[d]] == d && reverse[d] == Key(cars[d].name, cars[d].year)
    {
      if d < c {
        assert st.reverseCarIndex[d] != key;
      }
    }
  }

  lemma AddRowUsers(st: ParseState, row: CarRow, ts: int)
    requires CarsConsistent(st) && UsersConsistent(st)
    ensures UsersConsistent(AddRow(st, row, ts))
  {
    var interned := Intern(st, row.name, row.year);
    CarIdOfConsistent(st, row);
    AddUserConsistent(interned, CarIdOf(st, Key(row.name, row.year)), row.sellingPrice, ts);
  }

  /** A new user with a car already interned keeps the user tables
      consistent. */
  lemma AddUserConsistent(st: ParseState, carId: nat, rating: JsNumber, ts: int)
    requires UsersConsistent(st) && carId < st.carIdCounter
    ensures UsersConsistent(AddUser(st, carId, rating, ts))
  {
    var r := AddUser(st, carId, rating, ts);
    AddUserEntries(st, carId, rating, ts);
    assert |r.interactions| == r.userIdCounter;
  }

  /** The new user's entries, and every earlier user's kept. */
  lemma AddUserEntries(st: ParseState, carId: nat, rating: JsNumber, ts: int)
    requires UsersConsistent(st) && carId < st.carIdCounter
    ensures var r := AddUser(st, carId, rating, ts);
      && (forall u: nat :: u in r.userIndexer <==> u < r.userIdCounter)
      && (forall u: nat :: u in r.reverseUserIndex <==> u < r.userIdCounter)
      && (forall u: nat :: u in r.userToCars <==> u < r.userIdCounter)
      && forall v: nat :: v < r.userIdCounter ==>
        && r.userIndexer[v] == v && r.reverseUserIndex[v] == v
        && r.interactions[v].userId == v
        && r.interactions[v].carId < r.carIdCounter
        && r.userToCars[v] == {r.interactions[v].carId}
  {
    var r := AddUser(st, carId, rating, ts);
    var u := st.userIdCounter;
    assert u !in st.userToCars;
    var none: set<nat> := {};
    assert none + {carId} == {carId};
    assert r.userToCars == st.userToCars[u := {carId}];
    assert r.interactions[u] == CarInteraction(u, carId, rating, ts);
    forall v: nat | v < u + 1
      ensures && r.userIndexer[v] == v && r.reverseUserIndex[v] == v
              && r.interactions[v].userId == v
              && r.interactions[v].carId < r.carIdCounter
              && r.userToCars[v] == {r.interactions[v].carId}
    {
      if v < u {
        assert r.interactions[v] == st.interactions[v];
      }
    }
  }

  /** `r` extends the interactions of `st` and keeps every car of it. */
  ghost predicate Keeps(st: ParseState, r: ParseState) {
    && |r.interactions| >= |st.interactions|
    && r.interactions[..|st.interactions|] == st.interactions
    && (forall d :: d in st.cars ==> d in r.cars && r.cars[d] == st.cars[d])
  }

  lemma KeepsTransitive(a: ParseState, b: ParseState, c: ParseState)
    requires Keeps(a, b) && Keeps(b, c)
    ensures Keeps(a, c)
  {
    assert c.interactions[..|a.interactions|] == c.interactions[..|b.interactions|][..|a.interactions|];
  }

  /** Parsing from consistent tables keeps them consistent, keeps the
      interactions already there, and never shrinks the car table. */
  lemma {:induction false} ParseRowsConsistent(st: ParseState, rows: seq<Option<CarRow>>, clock: nat -> int)
    requires Consistent(st)
    ensures var r := ParseRows(st, rows, clock);
      && Consistent(r)
      && Keeps(st, r)
    decreases |rows|
  {
    if rows != [] {
      match rows[0] {
        case None =>
          ParseRowsConsistent(st, rows[1..], clock);
        case Some(row) =>
          var next := AddRow(st, row, clock(st.userIdCounter));
          AddRowConsistent(st, row, clock(st.userIdCounter));
          if |next.interactions| < MaxInteractions {
            ParseRowsConsistent(next, rows[1..], clock);
            KeepsTransitive(st, next, ParseRows(next, rows[1..], clock));
          }
      }
    }
  }

  /** The car side of `ParseRowsConsistent`. */
  lemma {:induction false} ParseRowsKeeps(st: ParseState, rows: seq<Option<CarRow>>, clock: nat -> int)
    requires CarsConsistent(st)
    ensures var r := ParseRows(st, rows, clock);
      CarsConsistent(r) && Keeps(st, r)
    decreases |rows|
  {
    if rows != [] {
      match rows[0] {
        case None =>
          ParseRowsKeeps(st, rows[1..], clock);
        case Some(row) =>
          var next := AddRow(st, row, clock(st.userIdCounter));
          AddRowCars(st, row, clock(st.userIdCounter));
          if |next.interactions| < MaxInteractions {
            ParseRowsKeeps(next, rows[1..], clock);
            KeepsTransitive(st, next, ParseRows(next, rows[1..], clock));
          }
      }
    }
  }

  /** From tables below the limit, parsing adds one interaction per
      accepted row until the limit is reached. */
  lemma {:induction false} ParseRowsCount(st: ParseState, rows: seq<Option<CarRow>>, clock: nat -> int)
    requires |st.interactions| < MaxInteractions
    ensures var n, a := |st.interactions|, |Accepted(rows)|;
      |ParseRows(st, rows, clock).interactions| == n + (if a < MaxInteractions - n then a else MaxInteractions - n)
    decreases |rows|
  {
    if rows != [] {
      match rows[0] {
        case None =>
          ParseRowsCount(st, rows[1..], clock);
        case Some(row) =>
          var next := AddRow(st, row, clock(st.userIdCounter));
          if |next.interactions| < MaxInteractions {
            ParseRowsCount(next, rows[1..], clock);
          }
      }
    }
  }

  /** Interaction `k` records `row`: its rating is the row's selling price
      and its car is the row's car. */
  ghost predicate RecordsRow(st: ParseState, k: nat, row: CarRow)
    requires k < |st.interactions|
  {
    && st.interactions[k].rating == row.sellingPrice
    && st.interactions[k].carId in st.cars
    && st.cars[st.interactions[k].carId] == Car(row.name, row.year)
  }

  /** The interactions from `n` on record the rows of `accepted`, in order. */
  ghost predicate Records(st: ParseState, n: nat, accepted: seq<CarRow>) {
    && n <= |st.interactions| && |st.interactions| - n <= |accepted|
    && forall j :: 0 <= j < |st.interactions| - n ==> RecordsRow(st, n + j, accepted[j])
  }

  lemma RecordsCons(next: ParseState, r: ParseState, n: nat, row: CarRow, rest: seq<CarRow>)
    requires |next.interactions| == n + 1
    requires Keeps(next, r)
    requires RecordsRow(next, n, row)
    requires Records(r, n + 1, rest)
    ensures Records(r, n, [row] + rest)
  {
    var accepted := [row] + rest;
    assert r.interactions[n] == r.interactions[..n + 1][n] == next.interactions[n];
    var c := next.interactions[n].carId;
    assert c in next.cars;
    forall j | 0 <= j < |r.interactions| - n ensures RecordsRow(r, n + j, accepted[j]) {
      if j > 0 {
        assert accepted[j] == rest[j - 1];
        assert RecordsRow(r, (n + 1) + (j - 1), rest[j - 1]);
      }
    }
  }

  /** From consistent tables below the limit, the interaction of the
      `k`-th accepted row has that row's selling price as its rating and
      that row's car (name and year) as its car. */
  lemma {:induction false} ParseRowsRecords(st: ParseState, rows: seq<Option<CarRow>>, clock: nat -> int)
    requires CarsConsistent(st)
    requires |st.interactions| < MaxInteractions
    ensures Records(ParseRows(st, rows, clock), |st.interactions|, Accepted(rows))
    decreases |rows|, 1
  {
    if rows != [] {
      assert rows == [rows[0]] + rows[1..];
      match rows[0] {
        case None =>
          ParseRowsRecords(st, rows[1..], clock);
        case Some(row) =>
          AcceptedRecords(st, row, rows[1..], clock);
      }
    }
  }

  /** The step of `ParseRowsRecords` at an accepted row. */
  lemma {:induction false} AcceptedRecords(st: ParseState, row: CarRow, rest: seq<Option<CarRow>>, clock: nat -> int)
    requires CarsConsistent(st)
    requires |st.interactions| < MaxInteractions
    ensures Records(ParseRows(st, [Some(row)] + rest, clock), |st.interactions|, [row] + Accepted(rest))
    decreases |rest| + 1, 0
  {
    var rows := [Some(row)] + rest;
    var n := |st.interactions|;
    var next := AddRow(st, row, clock(st.userIdCounter));
    var r := if |next.interactions| < MaxInteractions then ParseRows(next, rest, clock) else next;
    assert ParseRows(st, rows, clock) == r by {
      assert rows[0] == Some(row) && rows[1..] == rest;
    }
    AddRowCars(st, row, clock(st.userIdCounter));
    if |next.interactions| < MaxInteractions {
      ParseRowsRecords(next, rest, clock);
      ParseRowsKeeps(next, rest, clock);
    } else {
      assert Records(next, n + 1, Accepted(rest));
    }
    RecordsCons(next, r, n, row, Accepted(rest));
  }

  /** A load from the page's initial state: consistent tables with at most
      80000 interactions, user `u` having made interaction `u`, whose rating
      and car are those of the `u`-th accepted row. */
  lemma FirstLoad(rows: seq<Option<CarRow>>, clock: nat -> int)
    ensures var r := ParseRows(Initial, rows, clock);
      && Consistent(r)
      && |r.interactions| == (if |Accepted(rows)| < MaxInteractions then |Accepted(rows)| else MaxInteractions)
      && (forall u :: 0 <= u < |r.interactions| ==> r.interactions[u].userId == u)
      && Records(r, 0, Accepted(rows))
  {
    ParseRowsConsistent(Initial, rows, clock);
    ParseRowsCount(Initial, rows, clock);
    ParseRowsRecords(Initial, rows, clock);
  }

  /** In consistent tables two interactions share a car id exactly when
      their cars have the same name and year (the same `name_year` key). */
  lemma SameKeySameCarId(st: ParseState, u: nat, v: nat)
    requires Consistent(st)
    requires u < |st.interactions| && v < |st.interactions|
    ensures var c, d := st.interactions[u].carId, st.interactions[v].carId;
      c == d <==> Key(st.cars[c].name, st.cars[c].year) == Key(st.cars[d].name, st.cars[d].year)
  {
    var c, d := st.interactions[u].carId, st.interactions[v].carId;
    assert st.carIndexer[st.reverseCarIndex[c]] == c;
    assert st.carIndexer[st.reverseCarIndex[d]] == d;
  }

  /** A second load restarts the counters: on tables that already hold
      user 0, the first accepted row is again user 0, and the user's set
      then holds the old car too. */
  lemma ReloadReusesUserZero(st: ParseState, row: CarRow, ts: int)
    requires Consistent(st) && |st.interactions| > 0
    ensures var r := AddRow(st.(carIdCounter := 0, userIdCounter := 0), row, ts);
      && r.interactions[|st.interactions|].userId == 0
      && st.interactions[0].carId in r.userToCars[0]
  {
  }

  // --------------------------------------------------------- trainModel

  /** The `(userId, carId)` pairs of the training tensors. */
  function TrainingPairs(s: seq<CarInteraction>): (pairs: seq<(nat, nat)>)
    ensures |pairs| == |s|
    ensures forall i :: 0 <= i < |s| ==> pairs[i] == (s[i].userId, s[i].carId)
  {
    seq(|s|, i requires 0 <= i < |s| => (s[i].userId, s[i].carId))
  }

  // ------------------------------------------------------ testRecommendation

  datatype CarScore = CarScore(id: nat, score: real)

  /** `[...Array(n).keys()].map(id => ({ id, score })).filter(...)`: the car
      ids below `|scores|` that are not rated, each with its score, in id
      order. */
  function CarCandidates(scores: seq<real>, rated: set<nat>): (r: seq<CarScore>)
    ensures forall c :: c in r <==> c.id < |scores| && c.score == scores[c.id] && c.id !in rated
  {
    if scores == [] then []
    else
      var last := |scores| - 1;
      var rest := CarCandidates(scores[..last], rated);
      rest + (if last in rated then [] else [CarScore(last, scores[last])])
  }

  /** The comparator `(a, b) => b.score - a.score`. */
  predicate ScoreAtLeast(a: CarScore, b: CarScore) {
    a.score >= b.score
  }

  /** `.sort(...).slice(0, 10)`. */
  function TopCars(scores: seq<real>, rated: set<nat>): seq<CarScore> {
    Take(SortBy(CarCandidates(scores, rated), ScoreAtLeast), RecommendationCount)
  }

  /** The recommendations are at most ten unrated cars with their own
      scores, best first, and no unrated car left out scores higher than a
      car that was kept. */
  lemma TopCarsSelection(scores: seq<real>, rated: set<nat>)
    ensures var r := TopCars(scores, rated);
      var candidates := CarCandidates(scores, rated);
      && |r| == (if |candidates| < RecommendationCount then |candidates| else RecommendationCount)
      && multiset(r) <= multiset(candidates)
      && (forall i, j :: 0 <= i < j < |r| ==> r[i].score >= r[j].score)
      && (forall i :: 0 <= i < |r| ==> r[i].id < |scores| && r[i].score == scores[r[i].id] && r[i].id !in rated)
      && (forall k ::
            (0 <= k < |scores| && k !in rated && (forall i :: 0 <= i < |r| ==> r[i].id != k)) ==>
            forall i :: 0 <= i < |r| ==> r[i].score >= scores[k])
  {
    var candidates := CarCandidates(scores, rated);
    var r := TopCars(scores, rated);
    ScoreAtLeastIsTotal(Elements(candidates));
    TopK(candidates, ScoreAtLeast, RecommendationCount);
    UnratedLeftOutNoHigher(scores, rated, r);
  }

  lemma ScoreAtLeastIsTotal(domain: set<CarScore>)
    ensures TotalPreorderOn(ScoreAtLeast, domain)
  {
  }

  /** An unrated car that was not kept scores no higher than any kept one,
      once every candidate left out does. */
  lemma UnratedLeftOutNoHigher(scores: seq<real>, rated: set<nat>, r: seq<CarScore>)
    requires forall x :: x in CarCandidates(scores, rated) && x !in r ==>
      forall i :: 0 <= i < |r| ==> ScoreAtLeast(r[i], x)
    ensures forall k ::
      (0 <= k < |scores| && k !in rated && (forall i :: 0 <= i < |r| ==> r[i].id != k)) ==>
      forall i :: 0 <= i < |r| ==> r[i].score >= scores[k]
  {
    var candidates := CarCandidates(scores, rated);
    forall k | 0 <= k < |scores| && k !in rated && (forall i :: 0 <= i < |r| ==> r[i].id != k)
      ensures forall i :: 0 <= i < |r| ==> r[i].score >= scores[k]
    {
      var c := CarScore(k, scores[k]);
      assert c in candidates;
      assert c !in r;
    }
  }

  datatype TestError = NoQualifiedUsers | NotTrained

  /** What `testRecommendation` shows: the user drawn, the cars the user
      rated, and the recommended cars with their scores. */
  datatype Recommendation = Recommendation(user: nat, rated: set<nat>, recommended: seq<CarScore>)

  // ---------------------------------------------------------------- the page

  class CarApp {
    var interactions: seq<CarInteraction>
    var cars: map<nat, Car>
    var userToCars: map<nat, set<nat>>
    var carIndexer: map<string, nat>
    var userIndexer: map<nat, nat>
    var reverseCarIndex: map<nat, string>
    var reverseUserIndex: map<nat, nat>

    constructor()
      ensures State(0, 0) == Initial
    {
      interactions, cars, userToCars := [], map[], map[];
      carIndexer, userIndexer, reverseCarIndex, reverseUserIndex := map[], map[], map[], map[];
    }

    /** The globals, with the counters of a parse in progress. */
    function State(carIdCounter: nat, userIdCounter: nat): ParseState
      reads this
    {
      ParseState(interactions, cars, userToCars, carIndexer, userIndexer,
                 reverseCarIndex, reverseUserIndex, carIdCounter, userIdCounter)
    }

    /** `parseCarData(csvText)`, reading `clock(k)` for `Date.now()` at the
        row that becomes user `k`. */
    method ParseCarData(csvText: string, clock: nat -> int)
      modifies this
      ensures var r := ParseRows(old(State(0, 0)), ParsedRows(DataRows(Lines(csvText))), clock);
        && interactions == r.interactions && cars == r.cars && userToCars == r.userToCars
        && carIndexer == r.carIndexer && userIndexer == r.userIndexer
        && reverseCarIndex == r.reverseCarIndex && reverseUserIndex == r.reverseUserIndex
    {
      var lines := Lines(csvText);
      var headers := Split(lines[0], ',');
      if Contains(ToLower(headers[0]), "car_name") {
        lines := lines[1..];
      }
      var carIdCounter := 0;
      var userIdCounter := 0;
      ghost var entries := ParsedRows(lines);
      ghost var goal := ParseRows(State(0, 0), entries, clock);
      var i := 0;
      while i < |lines|
        invariant 0 <= i <= |lines|
        invariant ParseRows(State(carIdCounter, userIdCounter), entries[i..], clock) == goal
      {
        ParseRowsAt(State(carIdCounter, userIdCounter), entries, i, clock);
        ParsedRowsAt(lines, i);
        var fields := Split(lines[i], ',');
        if |fields| < FieldCount {
          i := i + 1;
          continue;
        }
        var carName := Trim(fields[0]);
        var year := ParseInt(fields[1], Decimal);
        var sellingPrice := ParseFloat(fields[2]);
        var presentPrice := ParseFloat(fields[3]);
        var kms := ParseInt(fields[4], Decimal);
        if year.None? || sellingPrice.NaN? || presentPrice.NaN? || kms.None? {
          i := i + 1;
          continue;
        }
        carIdCounter, userIdCounter := AcceptRow(carName, year.value, sellingPrice, clock(userIdCounter), carIdCounter, userIdCounter);
        if |interactions| >= MaxInteractions {
          assert State(carIdCounter, userIdCounter) == goal;
          break;
        }
        i := i + 1;
      }
      assert i == |lines| ==> entries[i..] == [];
    }

    /** The body of the loop for an accepted row. */
    method AcceptRow(carName: string, year: int, sellingPrice: JsNumber, ts: int, carIdCounter: nat, userIdCounter: nat)
      returns (carIds: nat, userIds: nat)
      modifies this
      ensures State(carIds, userIds) == AddRow(old(State(carIdCounter, userIdCounter)), CarRow(carName, year, sellingPrice), ts)
    {
      var carId;
      carId, carIds := InternCar(carName, year, carIdCounter);
      userIds := AddUserRow(carId, sellingPrice, ts, userIdCounter);
    }

    /** The car half: `carIndexer.get(carKey)`, or a new id with its car and
        reverse entry. */
    method InternCar(carName: string, year: int, carIdCounter: nat) returns (carId: nat, carIds: nat)
      modifies this`carIndexer, this`cars, this`reverseCarIndex
      ensures carId == CarIdOf(old(State(carIdCounter, 0)), Key(carName, year))
      ensures State(carIds, 0) == Intern(old(State(carIdCounter, 0)), carName, year)
    {
      var carKey := Key(carName, year);
      carIds := carIdCounter;
      if carKey in carIndexer {
        carId := carIndexer[carKey];
      } else {
        carId := carIds;
        carIds := carIds + 1;
        carIndexer := carIndexer[carKey := carId];
        cars := cars[carId := Car(carName, year)];
        reverseCarIndex := reverseCarIndex[carId := carKey];
      }
    }

    /** The user half: the row's user, its interaction and its car set. */
    method AddUserRow(carId: nat, sellingPrice: JsNumber, ts: int, userIdCounter: nat) returns (userIds: nat)
      modifies this`userIndexer, this`reverseUserIndex, this`interactions, this`userToCars
      ensures State(0, userIds) == AddUser(old(State(0, userIdCounter)), carId, sellingPrice, ts)
    {
      var userId := userIdCounter;
      userIds := userIdCounter + 1;
      userIndexer := userIndexer[userId := userId];
      reverseUserIndex := reverseUserIndex[userId := userId];
      interactions := interactions + [CarInteraction(userId, carId, sellingPrice, ts)];
      if userId !in userToCars {
        userToCars := userToCars[userId := {}];
      }
      userToCars := userToCars[userId := userToCars[userId] + {carId}];
    }

    /** The batches of `trainModel`'s epoch: slices of the
        `(userId, carId)` pairs of at most 64 each, covering them in order. */
    method TrainingBatches() returns (batches: seq<seq<(nat, nat)>>)
      ensures Batching.Flatten(batches) == TrainingPairs(interactions)
      ensures |batches| == Batching.NumBatches(|interactions|, BatchSize)
      ensures forall b :: 0 <= b < |batches| ==> 0 < |batches[b]| <= BatchSize
    {
      batches := Batching.Batches(TrainingPairs(interactions), BatchSize);
    }

    /** The users with at least one car: `validUsers`. */
    function ValidUsers(): set<nat>
      reads this
    {
      set u | u in userToCars && |userToCars[u]| >= 1
    }

    /** `testRecommendation` for the drawn user `user` (the random pick among
        the valid users) with the model's score for every indexed car; the
        page refuses when no user is valid, and an untrained model (`null`)
        throws. */
    function TestRecommendation(trained: bool, user: nat, scores: seq<real>): (r: Result<Recommendation, TestError>)
      reads this
      requires ValidUsers() != {} ==> user in ValidUsers()
      requires |scores| == |carIndexer|
      ensures r.Err? <==> ValidUsers() == {} || !trained
      ensures r == Err(NoQualifiedUsers) <==> ValidUsers() == {}
      ensures r.Ok? ==>
        && r.value.user == user
        && r.value.user in userToCars && r.value.rated == userToCars[r.value.user]
        && r.value.recommended == TopCars(scores, r.value.rated)
        && |r.value.recommended| <= RecommendationCount
        && forall c :: c in r.value.recommended ==> c.id !in r.value.rated && c.id < |carIndexer|
    {
      if ValidUsers() == {} then Err(NoQualifiedUsers)
      else if !trained then Err(NotTrained)
      else
        var rated := userToCars[user];
        TopCarsSelection(scores, rated);
        Ok(Recommendation(user, rated, TopCars(scores, rated)))
    }
  }
}
