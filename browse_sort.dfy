/**
 * The sort half of the browse page's effect.  `Array.prototype.sort` is
 * stable, so with a comparator that is a total preorder its result is the
 * one insertion sort produces: each element, taken in input order, is
 * placed after every element already placed that does not compare greater.
 * A `sortBy` outside the five known keys matches no `case` of the switch
 * and leaves the order alone.
 */
module BrowseSort {
  import opened JsStrings
  import opened SeqFilter
  import opened BrowseQuery

  /** The `sortBy` values the switch has a case for. */
  predicate IsSortKey(sortBy: string)
  {
    sortBy == "newest" || sortBy == "oldest" || sortBy == "price-low" ||
    sortBy == "price-high" || sortBy == "name"
  }

  /** The comparator each case passes to `sort`. */
  function Compare(sortBy: string, a: Listing, b: Listing): int
  {
    if sortBy == "newest" then b.createdAt - a.createdAt
    else if sortBy == "oldest" then a.createdAt - b.createdAt
    else if sortBy == "price-low" then a.price - b.price
    else if sortBy == "price-high" then b.price - a.price
    else if sortBy == "name" then LexCompare(a.name, b.name)
    else 0
  }

  lemma CompareAntisymmetric(sortBy: string, a: Listing, b: Listing)
    ensures Compare(sortBy, a, b) > 0 <==> Compare(sortBy, b, a) < 0
    ensures Compare(sortBy, a, b) == 0 <==> Compare(sortBy, b, a) == 0
  {
    LexCompareAntisymmetric(a.name, b.name);
  }

  lemma CompareTransitive(sortBy: string, a: Listing, b: Listing, c: Listing)
    requires Compare(sortBy, a, b) <= 0 && Compare(sortBy, b, c) <= 0
    ensures Compare(sortBy, a, c) <= 0
  {
    if sortBy == "name" {
      LexCompareTransitive(a.name, b.name, c.name);
    }
  }

  /** Comparing equal to a common element means comparing equal to each other. */
  lemma TiesTransitive(sortBy: string, a: Listing, b: Listing, k: Listing)
    requires Compare(sortBy, a, k) == 0 && Compare(sortBy, b, k) == 0
    ensures Compare(sortBy, a, b) == 0
  {
    CompareAntisymmetric(sortBy, b, k);
    CompareTransitive(sortBy, a, k, b);
    CompareTransitive(sortBy, b, k, a);
    CompareAntisymmetric(sortBy, a, b);
  }

  /** No element is followed by one that compares less. */
  predicate Ordered(sortBy: string, s: seq<Listing>)
  {
    forall i, j | 0 <= i < j < |s| :: Compare(sortBy, s[i], s[j]) <= 0
  }

  /** Places `x` after the last element of `s` that does not compare greater than it. */
  function Insert(sortBy: string, s: seq<Listing>, x: Listing): seq<Listing>
  {
    if s == [] then [x]
    else if Compare(sortBy, s[|s| - 1], x) > 0 then Insert(sortBy, s[..|s| - 1], x) + [s[|s| - 1]]
    else s + [x]
  }

  /** Stable sorting of `s` under the comparator of `sortBy`. */
  function InsertionSort(sortBy: string, s: seq<Listing>): seq<Listing>
  {
    if s == [] then [] else Insert(sortBy, InsertionSort(sortBy, s[..|s| - 1]), s[|s| - 1])
  }

  /** The order after the switch: sorted for a known key, untouched otherwise. */
  function SortBy(sortBy: string, s: seq<Listing>): seq<Listing>
  {
    if IsSortKey(sortBy) then InsertionSort(sortBy, s) else s
  }

  /** The listings that compare equal to `k`. */
  function Ties(sortBy: string, s: seq<Listing>, k: Listing): seq<Listing>
  {
    Where(s, y => Compare(sortBy, y, k) == 0)
  }

  lemma {:induction false} InsertPermutes(sortBy: string, s: seq<Listing>, x: Listing)
    ensures multiset(Insert(sortBy, s, x)) == multiset(s) + multiset{x}
  {
    if s != [] && Compare(sortBy, s[|s| - 1], x) > 0 {
      var init := s[..|s| - 1];
      InsertPermutes(sortBy, init, x);
      assert s == init + [s[|s| - 1]];
    }
  }

  lemma {:induction false} InsertOrdered(sortBy: string, s: seq<Listing>, x: Listing)
    requires Ordered(sortBy, s)
    ensures Ordered(sortBy, Insert(sortBy, s, x))
  {
    if s != [] {
      var last := s[|s| - 1];
      var init := s[..|s| - 1];
      if Compare(sortBy, last, x) > 0 {
        assert Ordered(sortBy, init) by {
          forall i, j | 0 <= i < j < |init| ensures Compare(sortBy, init[i], init[j]) <= 0 {
            assert init[i] == s[i] && init[j] == s[j];
          }
        }
        InsertOrdered(sortBy, init, x);
        var t := Insert(sortBy, init, x);
        InsertPermutes(sortBy, init, x);
        CompareAntisymmetric(sortBy, last, x);
        forall i | 0 <= i < |t| ensures Compare(sortBy, t[i], last) <= 0 {
          assert t[i] in multiset(t);
          if t[i] != x {
            assert t[i] in multiset(init);
            var m :| 0 <= m < |init| && init[m] == t[i];
            assert s[m] == init[m];
          }
        }
        AppendLargest(sortBy, t, last);
      } else {
        forall i | 0 <= i < |s| ensures Compare(sortBy, s[i], x) <= 0 {
          if i < |s| - 1 {
            CompareTransitive(sortBy, s[i], last, x);
          }
        }
        AppendLargest(sortBy, s, x);
      }
    }
  }

  /** An ordered list followed by a listing no element exceeds is ordered. */
  lemma AppendLargest(sortBy: string, t: seq<Listing>, y: Listing)
    requires Ordered(sortBy, t)
    requires forall i | 0 <= i < |t| :: Compare(sortBy, t[i], y) <= 0
    ensures Ordered(sortBy, t + [y])
  {
    var r := t + [y];
    forall i, j | 0 <= i < j < |r| ensures Compare(sortBy, r[i], r[j]) <= 0 {
      assert r[i] == t[i];
      if j < |t| {
        assert r[j] == t[j];
      }
    }
  }

  /** Inserting `x` keeps the ties with any `k` in order, `x` last among them. */
  lemma {:induction false} InsertTies(sortBy: string, s: seq<Listing>, x: Listing, k: Listing)
    ensures Ties(sortBy, Insert(sortBy, s, x), k) == Ties(sortBy, s, k) + Ties(sortBy, [x], k)
  {
    if s != [] {
      var last := s[|s| - 1];
      var init := s[..|s| - 1];
      assert s == init + [last];
      TiesAppend(sortBy, init, [last], k);
      if Compare(sortBy, last, x) > 0 {
        InsertTies(sortBy, init, x, k);
        TiesAppend(sortBy, Insert(sortBy, init, x), [last], k);
        TiesSingle(sortBy, x, k);
        TiesSingle(sortBy, last, k);
        if Compare(sortBy, x, k) == 0 && Compare(sortBy, last, k) == 0 {
          TiesTransitive(sortBy, last, x, k);
        }
      } else {
        TiesAppend(sortBy, s, [x], k);
      }
    }
  }

  /** The ties of a concatenation are the ties of each part, in order. */
  lemma TiesAppend(sortBy: string, a: seq<Listing>, b: seq<Listing>, k: Listing)
    ensures Ties(sortBy, a + b, k) == Ties(sortBy, a, k) + Ties(sortBy, b, k)
  {
    WhereAppend(a, b, y => Compare(sortBy, y, k) == 0);
  }

  /** A single listing ties with `k` or contributes nothing. */
  lemma TiesSingle(sortBy: string, y: Listing, k: Listing)
    ensures Ties(sortBy, [y], k) == if Compare(sortBy, y, k) == 0 then [y] else []
  {
    assert [y][1..] == [];
  }

  /** Sorting keeps every element, each as often as before. */
  lemma {:induction false} SortPermutes(sortBy: string, s: seq<Listing>)
    ensures multiset(InsertionSort(sortBy, s)) == multiset(s)
  {
    if s != [] {
      var init := s[..|s| - 1];
      var last := s[|s| - 1];
      var t := InsertionSort(sortBy, init);
      SortPermutes(sortBy, init);
      InsertPermutes(sortBy, t, last);
      assert InsertionSort(sortBy, s) == Insert(sortBy, t, last);
      assert s == init + [last];
      assert multiset(s) == multiset(init) + multiset{last};
    }
  }

  /** The sorted list never has a later listing comparing less than an earlier one. */
  lemma {:induction false} SortOrdered(sortBy: string, s: seq<Listing>)
    ensures Ordered(sortBy, InsertionSort(sortBy, s))
  {
    if s != [] {
      SortOrdered(sortBy, s[..|s| - 1]);
      InsertOrdered(sortBy, InsertionSort(sortBy, s[..|s| - 1]), s[|s| - 1]);
    }
  }

  /** Stability: listings that compare equal keep their relative order. */
  lemma {:induction false} SortStable(sortBy: string, s: seq<Listing>, k: Listing)
    ensures Ties(sortBy, InsertionSort(sortBy, s), k) == Ties(sortBy, s, k)
  {
    if s != [] {
      var init := s[..|s| - 1];
      SortStable(sortBy, init, k);
      InsertTies(sortBy, InsertionSort(sortBy, init), s[|s| - 1], k);
      assert s == init + [s[|s| - 1]];
      WhereAppend(init, [s[|s| - 1]], y => Compare(sortBy, y, k) == 0);
    }
  }

  /** The switch result: a permutation, ordered for a known key, and stable. */
  lemma SortByProperties(sortBy: string, s: seq<Listing>, k: Listing)
    ensures multiset(SortBy(sortBy, s)) == multiset(s)
    ensures IsSortKey(sortBy) ==> Ordered(sortBy, SortBy(sortBy, s))
    ensures Ties(sortBy, SortBy(sortBy, s), k) == Ties(sortBy, s, k)
    ensures !IsSortKey(sortBy) ==> SortBy(sortBy, s) == s
  {
    SortPermutes(sortBy, s);
    SortOrdered(sortBy, s);
    SortStable(sortBy, s, k);
  }

  /** Sorting "price-low" puts the cheaper listing first. */
  lemma PriceLowScenario(apple: Listing, banana: Listing)
    requires apple.price == 100 && banana.price == 50
    ensures SortBy("price-low", [apple, banana]) == [banana, apple]
  {
    assert [apple, banana][..1] == [apple];
    assert [apple][..0] == [];
    assert InsertionSort("price-low", [apple]) == [apple];
    assert Insert("price-low", [apple], banana) == Insert("price-low", [], banana) + [apple];
  }
}
