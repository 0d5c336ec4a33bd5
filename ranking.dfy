/**
 * `Counter.most_common(n)`: the items sorted by count, largest first, equal
 * counts keeping their insertion order, and the first `n` of them.
 */
module Ranking {
  import opened Dicts

  /** A Counter item: key and count. */
  type Item = (string, nat)

  /** Counts never increase along `s`. */
  predicate NonIncreasing(s: seq<Item>) {
    forall i, j :: 0 <= i < j < |s| ==> s[i].1 >= s[j].1
  }

  /** The items of `s` with count `c`, in order. */
  function WithCount(s: seq<Item>, c: nat): seq<Item> {
    if |s| == 0 then []
    else WithCount(s[..|s| - 1], c) + (if s[|s| - 1].1 == c then [s[|s| - 1]] else [])
  }

  /** Places `x` after every item of the sorted `s` whose count is at least its own. */
  function Insert(s: seq<Item>, x: Item): (r: seq<Item>)
    ensures |r| == |s| + 1
  {
    if |s| == 0 || s[|s| - 1].1 >= x.1 then s + [x]
    else Insert(s[..|s| - 1], x) + [s[|s| - 1]]
  }

  lemma {:induction false} InsertPermutes(s: seq<Item>, x: Item)
    ensures multiset(Insert(s, x)) == multiset(s) + multiset{x}
  {
    if |s| > 0 && s[|s| - 1].1 < x.1 {
      InsertPermutes(s[..|s| - 1], x);
      assert s == s[..|s| - 1] + [s[|s| - 1]];
    }
  }

  /** `sorted(items, key=count, reverse=True)`, which Python keeps stable. */
  function SortByCount(items: seq<Item>): (r: seq<Item>)
    ensures |r| == |items|
  {
    if |items| == 0 then []
    else Insert(SortByCount(items[..|items| - 1]), items[|items| - 1])
  }

  /** A bound on every count survives an insertion that respects it. */
  lemma {:induction false} InsertLowerBound(s: seq<Item>, x: Item, m: nat)
    requires forall i :: 0 <= i < |s| ==> s[i].1 >= m
    requires x.1 >= m
    ensures forall i :: 0 <= i < |Insert(s, x)| ==> Insert(s, x)[i].1 >= m
  {
    if |s| > 0 && s[|s| - 1].1 < x.1 {
      var init := s[..|s| - 1];
      forall i | 0 <= i < |init| ensures init[i].1 >= m {
        assert init[i] == s[i];
      }
      InsertLowerBound(init, x, m);
    }
  }

  lemma {:induction false} InsertSorted(s: seq<Item>, x: Item)
    requires NonIncreasing(s)
    ensures NonIncreasing(Insert(s, x))
  {
    if |s| > 0 && s[|s| - 1].1 < x.1 {
      var init := s[..|s| - 1];
      var last := s[|s| - 1];
      assert NonIncreasing(init) by {
        forall i, j | 0 <= i < j < |init| ensures init[i].1 >= init[j].1 {
          assert init[i] == s[i] && init[j] == s[j];
        }
      }
      forall i | 0 <= i < |init| ensures init[i].1 >= last.1 {
        assert init[i] == s[i];
      }
      InsertSorted(init, x);
      InsertLowerBound(init, x, last.1);
      var r := Insert(init, x);
      assert Insert(s, x) == r + [last];
    }
  }

  lemma {:induction false} InsertStable(s: seq<Item>, x: Item, c: nat)
    ensures WithCount(Insert(s, x), c) == WithCount(s, c) + (if x.1 == c then [x] else [])
  {
    if |s| == 0 || s[|s| - 1].1 >= x.1 {
      assert (s + [x])[..|s|] == s;
    } else {
      var init := s[..|s| - 1];
      var r := Insert(init, x);
      InsertStable(init, x, c);
      assert (r + [s[|s| - 1]])[..|r|] == r;
    }
  }

  /**
   * The sort orders by count, largest first, is a permutation of its input,
   * and keeps the items of each count in their original order.
   */
  lemma {:induction false} SortByCountSpec(items: seq<Item>)
    ensures NonIncreasing(SortByCount(items))
    ensures multiset(SortByCount(items)) == multiset(items)
    ensures forall c :: WithCount(SortByCount(items), c) == WithCount(items, c)
  {
    if |items| > 0 {
      var init := items[..|items| - 1];
      SortByCountSpec(init);
      InsertSorted(SortByCount(init), items[|items| - 1]);
      InsertPermutes(SortByCount(init), items[|items| - 1]);
      assert items == init + [items[|items| - 1]];
      forall c ensures WithCount(SortByCount(items), c) == WithCount(items, c) {
        InsertStable(SortByCount(init), items[|items| - 1], c);
      }
    }
  }

  function Min(a: nat, b: nat): nat {
    if a <= b then a else b
  }

  /** `Counter(items).most_common(n)`. */
  function MostCommon(items: seq<Item>, n: nat): (r: seq<Item>)
    ensures |r| == Min(n, |items|)
  {
    SortByCount(items)[..Min(n, |items|)]
  }

  /** `WithCount` of a prefix is a prefix of `WithCount`. */
  lemma {:induction false} WithCountPrefix(s: seq<Item>, k: nat, c: nat)
    requires k <= |s|
    ensures WithCount(s[..k], c) <= WithCount(s, c)
    decreases |s|
  {
    if k < |s| {
      assert s[..|s| - 1][..k] == s[..k];
      WithCountPrefix(s[..|s| - 1], k, c);
    } else {
      assert s[..k] == s;
    }
  }

  /** The most common `n` are at most `n` items, largest count first. */
  lemma MostCommonOrdered(items: seq<Item>, n: nat)
    ensures |MostCommon(items, n)| <= n
    ensures NonIncreasing(MostCommon(items, n))
  {
    SortByCountSpec(items);
    var sorted := SortByCount(items);
    var r := MostCommon(items, n);
    forall i, j | 0 <= i < j < |r| ensures r[i].1 >= r[j].1 {
      assert r[i] == sorted[i] && r[j] == sorted[j];
    }
  }

  /**
   * The most common `n` are taken from the input, and no item left out has a
   * larger count than one chosen.
   */
  lemma MostCommonChosen(items: seq<Item>, n: nat)
    ensures forall y :: y in MostCommon(items, n) ==> y in items
    ensures forall x, y :: x in items && x !in MostCommon(items, n) && y in MostCommon(items, n) ==> x.1 <= y.1
  {
    var sorted := SortByCount(items);
    var r := MostCommon(items, n);
    SortByCountSpec(items);
    forall y: Item | y in r ensures y in items {
      var i :| 0 <= i < |r| && r[i] == y;
      assert sorted[i] == y;
      assert y in multiset(sorted);
    }
    forall x: Item, y: Item | x in items && x !in r && y in r ensures x.1 <= y.1 {
      assert x in multiset(sorted);
      var j :| 0 <= j < |sorted| && sorted[j] == x;
      var i :| 0 <= i < |r| && r[i] == y;
      assert sorted[i] == y;
      assert j >= |r|;
    }
  }

  /** Items of equal count are taken in insertion order. */
  lemma MostCommonTies(items: seq<Item>, n: nat, c: nat)
    ensures WithCount(MostCommon(items, n), c) <= WithCount(items, c)
  {
    SortByCountSpec(items);
    WithCountPrefix(SortByCount(items), |MostCommon(items, n)|, c);
  }

  /** Every item of an insertion is the inserted one or came from `s`. */
  lemma {:induction false} InsertMembers(s: seq<Item>, x: Item)
    ensures forall i :: 0 <= i < |Insert(s, x)| ==> Insert(s, x)[i] == x || Insert(s, x)[i] in s
  {
    if |s| > 0 && s[|s| - 1].1 < x.1 {
      var init := s[..|s| - 1];
      InsertMembers(init, x);
      var r := Insert(init, x);
      forall i | 0 <= i < |r| && r[i] != x ensures r[i] in s {
        var k :| 0 <= k < |init| && init[k] == r[i];
        assert s[k] == r[i];
      }
    }
  }

  lemma {:induction false} InsertDistinct(s: seq<Item>, x: Item)
    requires DistinctKeys(s)
    requires forall i :: 0 <= i < |s| ==> s[i].0 != x.0
    ensures DistinctKeys(Insert(s, x))
  {
    if |s| > 0 && s[|s| - 1].1 < x.1 {
      var init := s[..|s| - 1];
      var last := s[|s| - 1];
      DistinctKeysInit(s);
      forall i | 0 <= i < |init| ensures init[i].0 != x.0 {
        assert init[i] == s[i];
      }
      InsertDistinct(init, x);
      InsertMembers(init, x);
      var r := Insert(init, x);
      forall i | 0 <= i < |r| ensures r[i].0 != last.0 {
        if r[i] != x {
          var k :| 0 <= k < |init| && init[k] == r[i];
        }
      }
      assert Insert(s, x) == r + [last];
    }
  }

  /** The sort only rearranges its input. */
  lemma {:induction false} SortByCountMembers(items: seq<Item>)
    ensures forall i :: 0 <= i < |SortByCount(items)| ==> SortByCount(items)[i] in items
  {
    if |items| > 0 {
      var init := items[..|items| - 1];
      SortByCountMembers(init);
      InsertMembers(SortByCount(init), items[|items| - 1]);
      var r := SortByCount(items);
      forall i | 0 <= i < |r| ensures r[i] in items {
        if r[i] != items[|items| - 1] {
          var k :| 0 <= k < |init| && init[k] == r[i];
          assert items[k] == r[i];
        }
      }
    }
  }

  lemma {:induction false} SortByCountDistinct(items: seq<Item>)
    requires DistinctKeys(items)
    ensures DistinctKeys(SortByCount(items))
  {
    if |items| > 0 {
      var init := items[..|items| - 1];
      var last := items[|items| - 1];
      DistinctKeysInit(items);
      SortByCountDistinct(init);
      SortByCountMembers(init);
      var sorted := SortByCount(init);
      forall i | 0 <= i < |sorted| ensures sorted[i].0 != last.0 {
        var k :| 0 <= k < |init| && init[k] == sorted[i];
      }
      InsertDistinct(sorted, last);
    }
  }

  /** Every one of the most common `n` is taken from the input. */
  lemma MostCommonMembers(items: seq<Item>, n: nat)
    ensures forall i :: 0 <= i < |MostCommon(items, n)| ==> MostCommon(items, n)[i] in items
  {
    SortByCountMembers(items);
    var r := MostCommon(items, n);
    forall i | 0 <= i < |r| ensures r[i] == SortByCount(items)[i] {
    }
  }

  /** The most common `n` of items with distinct keys have distinct keys. */
  lemma MostCommonDistinct(items: seq<Item>, n: nat)
    requires DistinctKeys(items)
    ensures DistinctKeys(MostCommon(items, n))
  {
    SortByCountDistinct(items);
    var r := MostCommon(items, n);
    forall i | 0 <= i < |r| ensures r[i] == SortByCount(items)[i] {
    }
  }
}
