/**
 * The result list as the client shows it: the reveal window of
 * `displayRecipes` and the deterministic orders of `sortRecipes`
 * (recipe-finder/script.js).
 */
module Listing {
  import opened Normalize

  /** Recipes revealed per page. */
  const PageSize := 9

  /** What `displayRecipes` puts on screen: the empty-state panel, or a grid and the load-more control. */
  datatype Panel<T> = EmptyState | Grid(shown: seq<T>, loadMore: bool)

  function Min(a: int, b: int): int {
    if a <= b then a else b
  }

  /**
   * `displayRecipes`: an empty list takes the empty-state path; otherwise the
   * grid shows the first `page * 9` items (all of them when there are fewer)
   * and the load-more control is shown exactly when some items stay hidden.
   */
  function Display<T>(items: seq<T>, page: nat): (p: Panel<T>)
    ensures p.EmptyState? <==> items == []
    ensures p.Grid? ==> p.shown <= items
    ensures p.Grid? ==> |p.shown| == |items| || |p.shown| == page * PageSize
    ensures p.Grid? ==> |p.shown| <= page * PageSize
    ensures p.Grid? ==> (p.loadMore <==> |items| > page * PageSize)
    ensures p.Grid? ==> (p.loadMore <==> |p.shown| < |items|)
  {
    if |items| == 0 then EmptyState
    else
      var shown := items[..Min(|items|, page * PageSize)];
      Grid(shown, |items| > |shown|)
  }

  /**
   * Revealing one more page keeps what was shown as a prefix; if the control
   * was hidden nothing changes, and if it was shown up to 9 more items appear.
   */
  lemma {:induction false} NextPageExtends<T>(items: seq<T>, page: nat)
    requires items != []
    ensures Display(items, page).shown <= Display(items, page + 1).shown
    ensures !Display(items, page).loadMore ==> Display(items, page + 1) == Display(items, page)
    ensures Display(items, page).loadMore ==>
              |Display(items, page + 1).shown| == Min(|items|, |Display(items, page).shown| + PageSize)
  {
    var now, next := Display(items, page), Display(items, page + 1);
    if now.loadMore {
      assert |now.shown| == page * PageSize;
    } else {
      assert now.shown == items;
      assert next.shown == items;
    }
  }

  /** The numeric fields `sortRecipes` can order by. */
  datatype SortKey = ByTime | ByCalories

  function KeyOf(r: Recipe, key: SortKey): int {
    match key
    case ByTime => r.time
    case ByCalories => r.calories
  }

  /** Non-decreasing in the chosen field. */
  predicate SortedBy(s: seq<Recipe>, key: SortKey) {
    forall i, j :: 0 <= i < j < |s| ==> KeyOf(s[i], key) <= KeyOf(s[j], key)
  }

  /** Puts `x` before the first element whose key is not smaller than its own. */
  function InsertBy(x: Recipe, s: seq<Recipe>, key: SortKey): (r: seq<Recipe>)
    ensures multiset(r) == multiset(s) + multiset{x}
    ensures |r| == |s| + 1
  {
    if s == [] || KeyOf(x, key) <= KeyOf(s[0], key) then [x] + s
    else
      assert s == [s[0]] + s[1..];
      [s[0]] + InsertBy(x, s[1..], key)
  }

  /** Every element of the result is `x` or an element of `s`. */
  lemma {:induction false} InsertByFrom(x: Recipe, s: seq<Recipe>, key: SortKey)
    ensures forall k :: 0 <= k < |InsertBy(x, s, key)| ==> InsertBy(x, s, key)[k] == x || InsertBy(x, s, key)[k] in s
  {
    if s != [] && KeyOf(x, key) > KeyOf(s[0], key) {
      InsertByFrom(x, s[1..], key);
      var rest := InsertBy(x, s[1..], key);
      assert forall k :: 1 <= k < |InsertBy(x, s, key)| ==> InsertBy(x, s, key)[k] == rest[k - 1];
      assert forall y :: y in s[1..] ==> y in s;
    }
  }

  /** An ascending list stays ascending with an element in front whose key is not larger than any of it. */
  lemma ConsSorted(x: Recipe, s: seq<Recipe>, key: SortKey)
    requires SortedBy(s, key)
    requires forall k :: 0 <= k < |s| ==> KeyOf(x, key) <= KeyOf(s[k], key)
    ensures SortedBy([x] + s, key)
  {
    var r := [x] + s;
    forall i, j | 0 <= i < j < |r|
      ensures KeyOf(r[i], key) <= KeyOf(r[j], key)
    {
      assert r[j] == s[j - 1];
      if i > 0 {
        assert r[i] == s[i - 1];
      }
    }
  }

  /** Inserting into an ascending list keeps it ascending. */
  lemma {:induction false} InsertBySorted(x: Recipe, s: seq<Recipe>, key: SortKey)
    requires SortedBy(s, key)
    ensures SortedBy(InsertBy(x, s, key), key)
  {
    if s == [] || KeyOf(x, key) <= KeyOf(s[0], key) {
      ConsSorted(x, s, key);
    } else {
      var tail := s[1..];
      InsertBySorted(x, tail, key);
      InsertByFrom(x, tail, key);
      var rest := InsertBy(x, tail, key);
      forall k | 0 <= k < |rest|
        ensures KeyOf(s[0], key) <= KeyOf(rest[k], key)
      {
        if rest[k] != x {
          var m :| 0 <= m < |tail| && tail[m] == rest[k];
          assert s[m + 1] == rest[k];
        }
      }
      ConsSorted(s[0], rest, key);
    }
  }

  /**
   * `recipes.sort((a, b) => a.key - b.key)`: an ascending arrangement of the
   * same recipes.
   */
  function SortBy(s: seq<Recipe>, key: SortKey): (r: seq<Recipe>)
    ensures SortedBy(r, key)
    ensures multiset(r) == multiset(s)
    ensures |r| == |s|
  {
    if s == [] then []
    else
      assert s == [s[0]] + s[1..];
      var rest := SortBy(s[1..], key);
      InsertBySorted(s[0], rest, key);
      InsertBy(s[0], rest, key)
  }

  /** Sorting an already ascending list leaves it as it is. */
  lemma {:induction false} SortBySorted(s: seq<Recipe>, key: SortKey)
    requires SortedBy(s, key)
    ensures SortBy(s, key) == s
  {
    if s != [] {
      SortBySorted(s[1..], key);
      assert s == [s[0]] + s[1..];
    }
  }
}
