/**
 * The order of the player list: rows with activity first, most recent at
 * the top, rows without activity after them, and equal keys kept in their
 * previous order (Python's `list.sort` is stable).
 */
module Ordering {
  import opened Wrappers
  import opened PlayerList

  /**
   * `get_sort_key`: priority 0 and the activity time for an active row,
   * priority 1 and `datetime.min` (here `None`) otherwise.
   */
  function GetSortKey(s: ItemState): (int, Option<int>) {
    if s.lastActivityTime.Some? then (0, s.lastActivityTime) else (1, None)
  }

  /** The key the list is sorted by: the priority, then the negated time (0 for `datetime.min`). */
  function OrderKey(s: ItemState): (int, int) {
    var k := GetSortKey(s);
    (k.0, if k.1.Some? then -k.1.value else 0)
  }

  /** Lexicographic order on keys, as Python compares tuples. */
  predicate KeyLe(a: (int, int), b: (int, int)) {
    a.0 < b.0 || (a.0 == b.0 && a.1 <= b.1)
  }

  predicate Sorted(xs: seq<ItemState>) {
    forall i, j :: 0 <= i < j < |xs| ==> KeyLe(OrderKey(xs[i]), OrderKey(xs[j]))
  }

  /** Places `x` before the first row whose key is not smaller, so that it precedes its equals. */
  function Insert(x: ItemState, ys: seq<ItemState>): seq<ItemState> {
    if ys == [] || KeyLe(OrderKey(x), OrderKey(ys[0])) then [x] + ys
    else [ys[0]] + Insert(x, ys[1..])
  }

  /** The stable sort by `OrderKey` (the `items_data.sort` call). */
  function SortByKey(xs: seq<ItemState>): seq<ItemState> {
    if xs == [] then [] else Insert(xs[0], SortByKey(xs[1..]))
  }

  /** The rows whose key is `k`, in order. */
  function WithKey(xs: seq<ItemState>, k: (int, int)): seq<ItemState> {
    if xs == [] then []
    else (if OrderKey(xs[0]) == k then [xs[0]] else []) + WithKey(xs[1..], k)
  }

  /** The usernames of the rows, in order. */
  function Names(xs: seq<ItemState>): (r: seq<string>)
    ensures |r| == |xs| && forall i :: 0 <= i < |xs| ==> r[i] == xs[i].username
  {
    if xs == [] then [] else [xs[0].username] + Names(xs[1..])
  }

  // ----- Properties of the sort -----

  /** A row whose key is at most every key of a sorted list can go in front of it. */
  lemma SortedCons(x: ItemState, ys: seq<ItemState>)
    requires Sorted(ys)
    requires forall i :: 0 <= i < |ys| ==> KeyLe(OrderKey(x), OrderKey(ys[i]))
    ensures Sorted([x] + ys)
  {
    var r := [x] + ys;
    forall i, j | 0 <= i < j < |r|
      ensures KeyLe(OrderKey(r[i]), OrderKey(r[j]))
    {
      assert r[j] == ys[j - 1];
      if i > 0 {
        assert r[i] == ys[i - 1];
      }
    }
  }

  lemma {:induction false} InsertMultiset(x: ItemState, ys: seq<ItemState>)
    ensures multiset(Insert(x, ys)) == multiset{x} + multiset(ys)
  {
    if ys != [] && !KeyLe(OrderKey(x), OrderKey(ys[0])) {
      InsertMultiset(x, ys[1..]);
      assert ys == [ys[0]] + ys[1..];
    }
  }

  lemma {:induction false} InsertSorted(x: ItemState, ys: seq<ItemState>)
    requires Sorted(ys)
    ensures Sorted(Insert(x, ys))
    ensures multiset(Insert(x, ys)) == multiset{x} + multiset(ys)
  {
    InsertMultiset(x, ys);
    if ys == [] || KeyLe(OrderKey(x), OrderKey(ys[0])) {
      SortedCons(x, ys);
    } else {
      var r := Insert(x, ys[1..]);
      InsertSorted(x, ys[1..]);
      assert Sorted(ys[1..]) by {
        forall i, j | 0 <= i < j < |ys| - 1
          ensures KeyLe(OrderKey(ys[1..][i]), OrderKey(ys[1..][j]))
        {
          assert ys[1..][i] == ys[i + 1] && ys[1..][j] == ys[j + 1];
        }
      }
      forall i | 0 <= i < |r|
        ensures KeyLe(OrderKey(ys[0]), OrderKey(r[i]))
      {
        assert r[i] in multiset(r);
      }
      SortedCons(ys[0], r);
    }
  }

  /** The sorted list is ordered by key and holds the same rows. */
  lemma {:induction false} SortByKeyCorrect(xs: seq<ItemState>)
    ensures Sorted(SortByKey(xs))
    ensures multiset(SortByKey(xs)) == multiset(xs)
  {
    if xs != [] {
      SortByKeyCorrect(xs[1..]);
      InsertSorted(xs[0], SortByKey(xs[1..]));
      assert xs == [xs[0]] + xs[1..];
    }
  }

  lemma {:induction false} WithKeyAppend(a: seq<ItemState>, b: seq<ItemState>, k: (int, int))
    ensures WithKey(a + b, k) == WithKey(a, k) + WithKey(b, k)
  {
    if a == [] {
      assert a + b == b;
    } else {
      assert (a + b)[1..] == a[1..] + b;
      WithKeyAppend(a[1..], b, k);
    }
  }

  lemma {:induction false} InsertWithKey(x: ItemState, ys: seq<ItemState>, k: (int, int))
    ensures WithKey(Insert(x, ys), k) == WithKey([x], k) + WithKey(ys, k)
  {
    if ys == [] || KeyLe(OrderKey(x), OrderKey(ys[0])) {
      WithKeyAppend([x], ys, k);
    } else {
      InsertWithKey(x, ys[1..], k);
      WithKeyAppend([ys[0]], Insert(x, ys[1..]), k);
      WithKeyAppend([ys[0]], ys[1..], k);
      assert [ys[0]] + ys[1..] == ys;
      if OrderKey(x) == k {
        assert WithKey([ys[0]], k) == [];
      } else {
        assert WithKey([x], k) == [];
      }
    }
  }

  /** Stability: the rows sharing a key keep their relative order. */
  lemma {:induction false} SortByKeyStable(xs: seq<ItemState>, k: (int, int))
    ensures WithKey(SortByKey(xs), k) == WithKey(xs, k)
  {
    if xs != [] {
      SortByKeyStable(xs[1..], k);
      InsertWithKey(xs[0], SortByKey(xs[1..]), k);
      WithKeyAppend([xs[0]], xs[1..], k);
      assert [xs[0]] + xs[1..] == xs;
    }
  }

  lemma {:induction false} InsertNames(x: ItemState, ys: seq<ItemState>)
    ensures multiset(Names(Insert(x, ys))) == multiset{x.username} + multiset(Names(ys))
  {
    if ys != [] && !KeyLe(OrderKey(x), OrderKey(ys[0])) {
      InsertNames(x, ys[1..]);
      assert ([ys[0]] + Insert(x, ys[1..]))[1..] == Insert(x, ys[1..]);
    } else {
      assert ([x] + ys)[1..] == ys;
    }
  }

  /** Sorting neither drops nor duplicates a player. */
  lemma {:induction false} SortKeepsNames(xs: seq<ItemState>)
    ensures multiset(Names(SortByKey(xs))) == multiset(Names(xs))
  {
    if xs != [] {
      SortKeepsNames(xs[1..]);
      InsertNames(xs[0], SortByKey(xs[1..]));
    }
  }

  /**
   * In the sorted list every active row comes before every row without
   * activity, and active rows run from the most recent to the oldest.
   */
  lemma MostRecentFirst(xs: seq<ItemState>, i: nat, j: nat)
    requires i < j < |SortByKey(xs)|
    ensures var r := SortByKey(xs);
      && (r[j].lastActivityTime.Some? ==> r[i].lastActivityTime.Some?)
      && (r[i].lastActivityTime.Some? && r[j].lastActivityTime.Some? ==>
            r[i].lastActivityTime.value >= r[j].lastActivityTime.value)
  {
    SortByKeyCorrect(xs);
  }
}
