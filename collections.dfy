/** The array and collection operations the JavaScript code leans on:
    `Array.prototype.sort` with a comparator (a stable sort), `slice(0, k)`,
    `filter`, the insertion order of a `Set`, and the ascending order of a
    set of numeric ids. */
module Collections {

  /** `le(a, b)` holds when the comparator lets `a` stand before `b`
      (`cmp(a, b) <= 0`). A comparator that is consistent is a total preorder. */
  ghost predicate TotalPreorder<T(!new)>(le: (T, T) -> bool) {
    && (forall a, b :: le(a, b) || le(b, a))
    && (forall a, b, c :: le(a, b) && le(b, c) ==> le(a, c))
  }

  predicate SortedBy<T>(s: seq<T>, le: (T, T) -> bool) {
    forall i, j :: 0 <= i < j < |s| ==> le(s[i], s[j])
  }

  predicate NoDuplicates<T(==)>(s: seq<T>) {
    forall i, j :: 0 <= i < j < |s| ==> s[i] != s[j]
  }

  predicate StrictlyIncreasing(s: seq<int>) {
    forall i, j :: 0 <= i < j < |s| ==> s[i] < s[j]
  }

  function Elements<T>(s: seq<T>): set<T> {
    set x | x in s
  }

  /** Puts `x` in front of the first element it may precede. Inserting the
      elements of a sequence back to front this way keeps equal elements in
      their original order, as the stable `Array.prototype.sort` does. */
  function InsertBy<T>(x: T, s: seq<T>, le: (T, T) -> bool): (r: seq<T>)
    ensures multiset(r) == multiset(s) + multiset{x}
    ensures |r| == |s| + 1
  {
    if s == [] then [x]
    else if le(x, s[0]) then [x] + s
    else
      assert s == [s[0]] + s[1..];
      [s[0]] + InsertBy(x, s[1..], le)
  }

  /** `s.sort(cmp)` for a comparator whose `cmp(a, b) <= 0` is `le(a, b)`. */
  function SortBy<T>(s: seq<T>, le: (T, T) -> bool): (r: seq<T>)
    ensures multiset(r) == multiset(s)
    ensures |r| == |s|
  {
    if s == [] then []
    else
      assert s == [s[0]] + s[1..];
      InsertBy(s[0], SortBy(s[1..], le), le)
  }

  /** A comparator may be consistent only on the values actually sorted (a
      numeric comparator is, as long as no value is NaN). */
  ghost predicate TotalPreorderOn<T>(le: (T, T) -> bool, domain: set<T>) {
    && (forall a, b :: a in domain && b in domain ==> le(a, b) || le(b, a))
    && (forall a, b, c :: a in domain && b in domain && c in domain && le(a, b) && le(b, c) ==> le(a, c))
  }

  lemma {:induction false} InsertBySorted<T>(x: T, s: seq<T>, le: (T, T) -> bool, domain: set<T>)
    requires TotalPreorderOn(le, domain)
    requires x in domain && forall y :: y in s ==> y in domain
    requires SortedBy(s, le)
    ensures SortedBy(InsertBy(x, s, le), le)
  {
    if s == [] {
    } else if le(x, s[0]) {
      forall y | y in s ensures le(x, y) {
        var k :| 0 <= k < |s| && s[k] == y;
        if k > 0 {
          assert le(s[0], s[k]);
        }
      }
      ConsSorted(x, s, le);
    } else {
      InsertBySorted(x, s[1..], le, domain);
      var rest := InsertBy(x, s[1..], le);
      assert s[0] in s;
      assert le(s[0], x);
      forall y | y in rest ensures le(s[0], y) {
        assert y in multiset(rest);
        assert y in multiset(s[1..]) + multiset{x};
        if y != x {
          assert y in s[1..];
          var k :| 0 <= k < |s[1..]| && s[1..][k] == y;
          assert s[k + 1] == y;
        }
      }
      ConsSorted(s[0], rest, le);
    }
  }

  /** An element that may precede every element of a sorted sequence may
      stand at its head. */
  lemma ConsSorted<T>(h: T, rest: seq<T>, le: (T, T) -> bool)
    requires SortedBy(rest, le)
    requires forall y :: y in rest ==> le(h, y)
    ensures SortedBy([h] + rest, le)
  {
    var r := [h] + rest;
    forall i, j | 0 <= i < j < |r| ensures le(r[i], r[j]) {
      assert r[j] == rest[j - 1];
      if i == 0 {
        assert rest[j - 1] in rest;
      } else {
        assert r[i] == rest[i - 1];
      }
    }
  }

  lemma {:induction false} SortByIsSorted<T>(s: seq<T>, le: (T, T) -> bool)
    requires TotalPreorderOn(le, Elements(s))
    ensures SortedBy(SortBy(s, le), le)
  {
    SortBySortedWithin(s, le, Elements(s));
  }

  lemma {:induction false} SortBySortedWithin<T>(s: seq<T>, le: (T, T) -> bool, domain: set<T>)
    requires TotalPreorderOn(le, domain)
    requires forall y :: y in s ==> y in domain
    ensures SortedBy(SortBy(s, le), le)
  {
    if s != [] {
      SortBySortedWithin(s[1..], le, domain);
      var sorted := SortBy(s[1..], le);
      forall y | y in sorted ensures y in domain {
        assert y in multiset(sorted);
      }
      InsertBySorted(s[0], sorted, le, domain);
    }
  }

  /** `s.slice(0, k)`. */
  function Take<T>(s: seq<T>, k: nat): (r: seq<T>)
    ensures |r| == if |s| < k then |s| else k
    ensures r == s[..|r|]
  {
    if |s| <= k then s else s[..k]
  }

  /** `s.filter(p)`. */
  function Filter<T(!new)>(s: seq<T>, p: T -> bool): (r: seq<T>)
    ensures |r| <= |s|
    ensures forall x :: x in r <==> x in s && p(x)
  {
    if s == [] then []
    else
      assert s == [s[0]] + s[1..];
      (if p(s[0]) then [s[0]] else []) + Filter(s[1..], p)
  }

  /** Filtering keeps elements in their order, so a list without repeats
      stays without repeats. */
  lemma {:induction false} FilterNoDuplicates<T(!new)>(s: seq<T>, p: T -> bool)
    requires NoDuplicates(s)
    ensures NoDuplicates(Filter(s, p))
  {
    if s != [] {
      assert s == [s[0]] + s[1..];
      FilterNoDuplicates(s[1..], p);
      assert s[0] !in s[1..];
    }
  }

  /** Filtering a longer list filters the new element on its own. */
  lemma {:induction false} FilterSnoc<T(!new)>(s: seq<T>, x: T, p: T -> bool)
    ensures Filter(s + [x], p) == Filter(s, p) + (if p(x) then [x] else [])
  {
    var last := if p(x) then [x] else [];
    if s == [] {
      assert [x][1..] == [];
    } else {
      var t := s + [x];
      var head := if p(s[0]) then [s[0]] else [];
      assert t[0] == s[0] && t[1..] == s[1..] + [x];
      FilterSnoc(s[1..], x, p);
      calc {
        Filter(t, p);
        head + Filter(s[1..] + [x], p);
        head + (Filter(s[1..], p) + last);
        (head + Filter(s[1..], p)) + last;
        Filter(s, p) + last;
      }
    }
  }

  lemma {:induction false} FilterNone<T(!new)>(s: seq<T>, p: T -> bool)
    requires forall x :: x in s ==> !p(x)
    ensures Filter(s, p) == []
  {
    if s != [] {
      assert s[0] in s;
      FilterNone(s[1..], p);
    }
  }

  /** The `k` best elements under `le`: `s.sort(cmp).slice(0, k)`. They are
      sorted, drawn from `s`, as many as `s` has up to `k`, and no element of
      `s` left out may precede any element that was kept. */
  lemma {:induction false} TopK<T>(s: seq<T>, le: (T, T) -> bool, k: nat)
    requires TotalPreorderOn(le, Elements(s))
    ensures var r := Take(SortBy(s, le), k);
      && |r| == (if |s| < k then |s| else k)
      && SortedBy(r, le)
      && multiset(r) <= multiset(s)
      && (forall i :: 0 <= i < |r| ==> r[i] in s)
      && forall x :: x in s && x !in r ==> forall i :: 0 <= i < |r| ==> le(r[i], x)
  {
    var sorted := SortBy(s, le);
    var r := Take(sorted, k);
    SortByIsSorted(s, le);
    PrefixSorted(sorted, le, |r|);
    PrefixMultiset(sorted, |r|);
    forall i | 0 <= i < |r| ensures r[i] in s {
      assert r[i] in multiset(r);
    }
    forall x | x in s && x !in r ensures forall i :: 0 <= i < |r| ==> le(r[i], x) {
      assert x in multiset(s);
      assert x in sorted;
      BeyondPrefix(sorted, le, |r|, x);
    }
  }

  lemma PrefixSorted<T>(s: seq<T>, le: (T, T) -> bool, n: nat)
    requires n <= |s| && SortedBy(s, le)
    ensures SortedBy(s[..n], le)
  {
  }

  lemma PrefixMultiset<T>(s: seq<T>, n: nat)
    requires n <= |s|
    ensures multiset(s[..n]) <= multiset(s)
  {
    assert s == s[..n] + s[n..];
  }

  /** In a sorted sequence, an element that is not in the first `n` comes
      after each of them. */
  lemma BeyondPrefix<T>(s: seq<T>, le: (T, T) -> bool, n: nat, x: T)
    requires n <= |s| && SortedBy(s, le)
    requires x in s && x !in s[..n]
    ensures forall i :: 0 <= i < n ==> le(s[i], x)
  {
    var j :| 0 <= j < |s| && s[j] == x;
    forall i | 0 <= i < n ensures le(s[i], x) {
      assert i < j;
    }
  }

  /** The elements of `s` in order of first appearance, without repeats: the
      iteration order of `new Set(s)` (and of a `Map` keyed the same way). */
  function Dedup<T(==,!new)>(s: seq<T>): (r: seq<T>)
    ensures forall x :: x in r <==> x in s
    ensures NoDuplicates(r)
    ensures |r| <= |s|
  {
    if s == [] then []
    else
      var d := Dedup(s[..|s| - 1]);
      assert forall x :: x in s <==> x in s[..|s| - 1] || x == s[|s| - 1];
      if s[|s| - 1] in d then d else d + [s[|s| - 1]]
  }

  /** Adding an element to a deduplicated prefix mirrors `Set.add`: a new
      element goes to the end, a repeated one changes nothing. */
  lemma DedupSnoc<T(!new)>(s: seq<T>, x: T)
    ensures Dedup(s + [x]) == if x in Dedup(s) then Dedup(s) else Dedup(s) + [x]
  {
    assert (s + [x])[..|s + [x]| - 1] == s;
  }

  /** The position of the first occurrence of `x` (`indexOf`). */
  function IndexOf<T(==)>(s: seq<T>, x: T): (i: nat)
    requires x in s
    ensures i < |s| && s[i] == x
    ensures forall j :: 0 <= j < i ==> s[j] != x
  {
    if s[0] == x then 0 else 1 + IndexOf(s[1..], x)
  }

  lemma IndexOfDistinct<T>(s: seq<T>, i: nat)
    requires NoDuplicates(s)
    requires i < |s|
    ensures IndexOf(s, s[i]) == i
  {
  }

  lemma {:induction false} DistinctCard<T>(s: seq<T>)
    requires NoDuplicates(s)
    ensures |Elements(s)| == |s|
  {
    if s != [] {
      var init := s[..|s| - 1];
      DistinctCard(init);
      assert Elements(s) == Elements(init) + {s[|s| - 1]};
      assert s[|s| - 1] !in Elements(init);
    }
  }

  lemma MinExists(s: set<int>)
    requires s != {}
    ensures exists m :: m in s && forall y :: y in s ==> m <= y
  {
    var m := Minimum(s);
  }

  /** The least element of a non-empty set of integers. */
  lemma {:induction false} Minimum(s: set<int>) returns (m: int)
    requires s != {}
    ensures m in s && forall y :: y in s ==> m <= y
    decreases |s|
  {
    if forall y :: y !in s {
      assert false;
    }
    var x :| x in s;
    var rest := s - {x};
    if rest == {} {
      m := x;
      forall y | y in s ensures m <= y {
        assert y !in rest;
      }
    } else {
      assert |rest| == |s| - 1;
      var least := Minimum(rest);
      m := if x < least then x else least;
      forall y | y in s ensures m <= y {
        if y != x { assert y in rest; }
      }
    }
  }

  /** The ids of a set in ascending order: `[...ids].sort((a, b) => a - b)`.
      The ids being distinct, the order is determined by the set alone. */
  function SortedKeys(s: set<int>): (r: seq<int>)
    ensures |r| == |s|
    ensures forall x :: x in r <==> x in s
    ensures StrictlyIncreasing(r)
    decreases s
  {
    if s == {} then []
    else
      MinExists(s);
      var m :| m in s && forall y :: y in s ==> m <= y;
      var rest := SortedKeys(s - {m});
      SortedKeysCons(s, m, rest);
      [m] + rest
  }

  /** The ascending ids are distinct and are exactly the set. */
  lemma SortedKeysDistinct(s: set<int>)
    ensures NoDuplicates(SortedKeys(s))
    ensures Elements(SortedKeys(s)) == s
  {
    var r := SortedKeys(s);
    forall i, j | 0 <= i < j < |r| ensures r[i] != r[j] {
      assert r[i] < r[j];
    }
  }

  lemma SortedKeysCons(s: set<int>, m: int, rest: seq<int>)
    requires m in s && forall y :: y in s ==> m <= y
    requires |rest| == |s - {m}|
    requires forall x :: x in rest <==> x in s - {m}
    requires StrictlyIncreasing(rest)
    ensures |[m] + rest| == |s|
    ensures forall x :: x in [m] + rest <==> x in s
    ensures StrictlyIncreasing([m] + rest)
  {
    var r := [m] + rest;
    forall i, j | 0 <= i < j < |r| ensures r[i] < r[j] {
      assert r[j] == rest[j - 1] && rest[j - 1] in rest;
      if i > 0 {
        assert r[i] == rest[i - 1];
      }
    }
  }

  /** Id `order[i]` maps to `i` (the first position, when ids repeat). */
  function IndexMap<T>(order: seq<T>): (m: map<T, nat>)
    ensures m.Keys == Elements(order)
  {
    map x | x in order :: IndexOf(order, x)
  }

  /** Index `i` maps back to `order[i]`. */
  function ReverseMap<T>(order: seq<T>): (m: map<nat, T>)
    ensures forall i: nat :: i in m <==> i < |order|
  {
    map i: nat | i < |order| :: order[i]
  }

  /** The forward and backward maps of a list of distinct ids are mutually
      inverse, and the indices are exactly `0..|order| - 1`. */
  lemma IndexMapsInverse<T>(order: seq<T>)
    requires NoDuplicates(order)
    ensures forall x :: x in order ==>
      IndexMap(order)[x] < |order| && ReverseMap(order)[IndexMap(order)[x]] == x
    ensures forall i: nat :: i < |order| ==>
      ReverseMap(order)[i] in IndexMap(order) && IndexMap(order)[ReverseMap(order)[i]] == i
  {
    forall i: nat | i < |order|
      ensures ReverseMap(order)[i] in IndexMap(order) && IndexMap(order)[ReverseMap(order)[i]] == i
    {
      IndexOfDistinct(order, i);
    }
  }

  /** `Array.from(new Set(ids))` lists the ids in order of first appearance:
      one id comes before another exactly when it first occurs earlier. */
  lemma {:induction false} DedupFirstAppearance<T(!new)>(s: seq<T>, x: T, y: T)
    requires x in s && y in s
    ensures IndexOf(Dedup(s), x) < IndexOf(Dedup(s), y) <==> IndexOf(s, x) < IndexOf(s, y)
  {
    var init := s[..|s| - 1];
    var last := s[|s| - 1];
    assert s == init + [last];
    var d := Dedup(init);
    if x in init && y in init {
      DedupFirstAppearance(init, x, y);
      IndexOfPrefix(init, [last], x);
      IndexOfPrefix(init, [last], y);
      if last !in d {
        IndexOfPrefix(d, [last], x);
        IndexOfPrefix(d, [last], y);
      }
    } else if x in init {
      assert y == last && y !in d;
      IndexOfPrefix(init, [last], x);
      IndexOfPrefix(d, [last], x);
      IndexOfLast(init, last);
      IndexOfLast(d, last);
    } else if y in init {
      assert x == last && x !in d;
      IndexOfPrefix(init, [last], y);
      IndexOfPrefix(d, [last], y);
      IndexOfLast(init, last);
      IndexOfLast(d, last);
    }
  }

  lemma {:induction false} IndexOfPrefix<T>(s: seq<T>, t: seq<T>, x: T)
    requires x in s
    ensures IndexOf(s + t, x) == IndexOf(s, x)
  {
    if s[0] != x {
      assert (s + t)[1..] == s[1..] + t;
      IndexOfPrefix(s[1..], t, x);
    }
  }

  lemma IndexOfLast<T>(s: seq<T>, x: T)
    requires x !in s
    ensures IndexOf(s + [x], x) == |s|
  {
    forall j | 0 <= j < |s| ensures (s + [x])[j] != x {
      assert (s + [x])[j] == s[j];
    }
    assert (s + [x])[|s|] == x;
  }

  /** Adding the next id to the maps is a `set` on each. */
  lemma IndexMapSnoc<T>(order: seq<T>, i: nat)
    requires NoDuplicates(order) && i < |order|
    ensures IndexMap(order[..i + 1]) == IndexMap(order[..i])[order[i] := i]
    ensures ReverseMap(order[..i + 1]) == ReverseMap(order[..i])[i := order[i]]
  {
    var longer := order[..i + 1];
    assert longer == order[..i] + [order[i]];
    IndexOfLast(order[..i], order[i]);
    forall x | x in order[..i] ensures IndexOf(longer, x) == IndexOf(order[..i], x) {
      IndexOfPrefix(order[..i], [order[i]], x);
    }
  }

  /** `order.forEach((id, index) => { map.set(id, index); reverse.set(index, id); })`
      over distinct ids. The maps are not cleared first: entries already
      there stay unless overwritten. */
  method AssignIndices<T>(order: seq<T>, forward: map<T, nat>, backward: map<nat, T>)
    returns (newForward: map<T, nat>, newBackward: map<nat, T>)
    requires NoDuplicates(order)
    ensures newForward == forward + IndexMap(order)
    ensures newBackward == backward + ReverseMap(order)
  {
    newForward, newBackward := forward, backward;
    var i := 0;
    while i < |order|
      invariant 0 <= i <= |order|
      invariant newForward == forward + IndexMap(order[..i])
      invariant newBackward == backward + ReverseMap(order[..i])
    {
      IndexMapSnoc(order, i);
      UnionUpdate(forward, IndexMap(order[..i]), order[i], i);
      UnionUpdate(backward, ReverseMap(order[..i]), i, order[i]);
      newForward := newForward[order[i] := i];
      newBackward := newBackward[i := order[i]];
      i := i + 1;
    }
    assert order[..|order|] == order;
  }

  lemma UnionUpdate<K, V>(base: map<K, V>, added: map<K, V>, k: K, v: V)
    ensures (base + added)[k := v] == base + added[k := v]
  {
  }
}
