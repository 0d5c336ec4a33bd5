/** Python's insertion-ordered `dict` and `collections.Counter`. */
module Dicts {

  /** A dict with string keys: `keys` in insertion order and the mapping they index. */
  datatype Dict<V> = Dict(keys: seq<string>, values: map<string, V>) {

    ghost predicate Valid() {
      && (forall i, j :: 0 <= i < j < |keys| ==> keys[i] != keys[j])
      && (forall k :: k in values <==> k in keys)
    }

    /** `d[k] = v`: a new key goes last, an existing key keeps its place. */
    function Put(k: string, v: V): Dict<V> {
      if k in values then Dict(keys, values[k := v]) else Dict(keys + [k], values[k := v])
    }

    /** `d.items()`, in insertion order. */
    function Items(): (r: seq<(string, V)>)
      requires Valid()
      ensures |r| == |keys|
      ensures forall i :: 0 <= i < |r| ==> r[i].0 == keys[i] && r[i].0 in values && r[i].1 == values[r[i].0]
    {
      seq(|keys|, i requires 0 <= i < |keys| => (keys[i], values[keys[i]]))
    }
  }

  /** Storing a key keeps the keys distinct and in step with the mapping; the keys already present keep their order. */
  lemma PutValid<V>(d: Dict<V>, k: string, v: V)
    requires d.Valid()
    ensures d.Put(k, v).Valid()
    ensures d.keys <= d.Put(k, v).keys
    ensures k in d.Put(k, v).values && d.Put(k, v).values[k] == v
  {
  }

  function Empty<V>(): (d: Dict<V>)
    ensures d.Valid() && d.keys == [] && d.values == map[]
  {
    Dict([], map[])
  }

  /** `c[k]` on a Counter: 0 for a missing key. */
  function Get0(c: Dict<nat>, k: string): nat {
    if k in c.values then c.values[k] else 0
  }

  /** Sum of the values listed under `keys`, taken from the last key backwards. */
  function SumOver(keys: seq<string>, m: map<string, nat>): nat {
    if |keys| == 0 then 0
    else SumOver(keys[..|keys| - 1], m) + (if keys[|keys| - 1] in m then m[keys[|keys| - 1]] else 0)
  }

  /** `sum(c.values())`. */
  function Sum(c: Dict<nat>): nat
    requires c.Valid()
  {
    SumOver(c.keys, c.values)
  }

  /** Every count of the Counter is at least one. */
  ghost predicate Positive(c: Dict<nat>) {
    forall k :: k in c.values ==> c.values[k] >= 1
  }

  /** `c[k] += 1`: the count of `k` goes up by one and no other count changes. */
  function Increment(c: Dict<nat>, k: string): (r: Dict<nat>)
    ensures Get0(r, k) == Get0(c, k) + 1
    ensures forall k' :: k' != k ==> Get0(r, k') == Get0(c, k')
  {
    c.Put(k, Get0(c, k) + 1)
  }

  /** Incrementing keeps the Counter well formed and adds one to its total. */
  lemma IncrementValid(c: Dict<nat>, k: string)
    requires c.Valid()
    ensures Increment(c, k).Valid()
    ensures Sum(Increment(c, k)) == Sum(c) + 1
  {
    assert Increment(c, k) == c.Put(k, Get0(c, k) + 1);
    PutValid(c, k, Get0(c, k) + 1);
    IncrementSum(c, k);
  }

  /** Incrementing a Counter whose counts are positive leaves them positive. */
  lemma IncrementPositive(c: Dict<nat>, k: string)
    requires Positive(c)
    ensures Positive(Increment(c, k))
  {
    var r := Increment(c, k);
    forall x | x in r.values ensures r.values[x] >= 1 {
      if x != k {
        assert r.values[x] == c.values[x];
      }
    }
  }

  lemma IncrementSum(c: Dict<nat>, k: string)
    requires c.Valid()
    ensures Sum(c.Put(k, Get0(c, k) + 1)) == Sum(c) + 1
  {
    if k in c.values {
      SumOverBump(c.keys, c.values, k);
    } else {
      IncrementNewKeySum(c, k);
    }
  }

  lemma IncrementNewKeySum(c: Dict<nat>, k: string)
    requires c.Valid() && k !in c.values
    ensures Sum(c.Put(k, 1)) == Sum(c) + 1
  {
    SumOverAppend(c.keys, c.values, k, 1);
  }

  /** Adding a new key at the end adds its value to the sum. */
  lemma SumOverAppend(keys: seq<string>, m: map<string, nat>, k: string, v: nat)
    requires k !in keys
    ensures SumOver(keys + [k], m[k := v]) == SumOver(keys, m) + v
  {
    assert (keys + [k])[..|keys|] == keys;
    SumOverOther(keys, m, k, v);
  }

  /** A value stored under a key that is not listed does not change the sum. */
  lemma {:induction false} SumOverOther(keys: seq<string>, m: map<string, nat>, k: string, v: nat)
    requires k !in keys
    ensures SumOver(keys, m[k := v]) == SumOver(keys, m)
  {
    if |keys| > 0 {
      SumOverOther(keys[..|keys| - 1], m, k, v);
    }
  }

  /** Raising the value of a key listed once raises the sum by one. */
  lemma {:induction false} SumOverBump(keys: seq<string>, m: map<string, nat>, k: string)
    requires forall i, j :: 0 <= i < j < |keys| ==> keys[i] != keys[j]
    requires k in keys && k in m
    ensures SumOver(keys, m[k := m[k] + 1]) == SumOver(keys, m) + 1
  {
    var init := keys[..|keys| - 1];
    if keys[|keys| - 1] == k {
      forall i | 0 <= i < |init| ensures init[i] != k {
        assert init[i] == keys[i];
      }
      SumOverOther(init, m, k, m[k] + 1);
    } else {
      assert k in init by {
        var i :| 0 <= i < |keys| && keys[i] == k;
        assert i < |keys| - 1;
        assert init[i] == k;
      }
      SumOverBump(init, m, k);
    }
  }

  /** A Counter whose counts are all positive sums to zero only when it is empty. */
  lemma {:induction false} SumPositive(keys: seq<string>, m: map<string, nat>)
    requires forall x :: x in keys ==> x in m && m[x] >= 1
    ensures SumOver(keys, m) >= |keys|
  {
    if |keys| > 0 {
      SumPositive(keys[..|keys| - 1], m);
    }
  }

  /** No key occurs twice among `pairs`. */
  predicate DistinctKeys<V>(pairs: seq<(string, V)>) {
    forall i, j :: 0 <= i < j < |pairs| ==> pairs[i].0 != pairs[j].0
  }

  /** The keys of `pairs`, in order. */
  function KeysOf<V>(pairs: seq<(string, V)>): (ks: seq<string>)
    ensures |ks| == |pairs|
    ensures forall i :: 0 <= i < |pairs| ==> ks[i] == pairs[i].0
  {
    seq(|pairs|, i requires 0 <= i < |pairs| => pairs[i].0)
  }

  /** `dict(pairs)`: each pair stored in turn. */
  function FromPairs<V>(pairs: seq<(string, V)>): Dict<V> {
    if |pairs| == 0 then Empty()
    else FromPairs(pairs[..|pairs| - 1]).Put(pairs[|pairs| - 1].0, pairs[|pairs| - 1].1)
  }

  lemma DistinctKeysInit<V>(pairs: seq<(string, V)>)
    requires DistinctKeys(pairs) && |pairs| > 0
    ensures DistinctKeys(pairs[..|pairs| - 1])
    ensures forall i :: 0 <= i < |pairs| - 1 ==> pairs[i].0 != pairs[|pairs| - 1].0
  {
  }

  /** With distinct keys, `dict(pairs)` is well formed and lists the keys in order. */
  lemma {:induction false} FromPairsKeys<V>(pairs: seq<(string, V)>)
    requires DistinctKeys(pairs)
    ensures FromPairs(pairs).Valid()
    ensures FromPairs(pairs).keys == KeysOf(pairs)
  {
    if |pairs| > 0 {
      var init := pairs[..|pairs| - 1];
      var last := pairs[|pairs| - 1];
      DistinctKeysInit(pairs);
      FromPairsKeys(init);
      var d := FromPairs(init);
      assert last.0 !in d.keys by {
        forall i | 0 <= i < |d.keys| ensures d.keys[i] != last.0 {
          assert d.keys[i] == init[i].0 == pairs[i].0;
        }
      }
      PutValid(d, last.0, last.1);
      assert KeysOf(pairs) == KeysOf(init) + [last.0];
    }
  }

  /** With distinct keys, every pair's value is the one `dict(pairs)` keeps. */
  lemma {:induction false} FromPairsValues<V>(pairs: seq<(string, V)>)
    requires DistinctKeys(pairs)
    ensures forall i :: 0 <= i < |pairs| ==> pairs[i].0 in FromPairs(pairs).values && FromPairs(pairs).values[pairs[i].0] == pairs[i].1
  {
    if |pairs| > 0 {
      var init := pairs[..|pairs| - 1];
      DistinctKeysInit(pairs);
      FromPairsValues(init);
      forall i | 0 <= i < |init| ensures FromPairs(pairs).values[pairs[i].0] == pairs[i].1 {
        assert init[i] == pairs[i];
      }
    }
  }

  /** A dict's items have distinct keys. */
  lemma ItemsDistinct<V>(d: Dict<V>)
    requires d.Valid()
    ensures DistinctKeys(d.Items())
  {
  }

  /** The distinct strings of `xs`, each kept where it first occurs. */
  function FirstOccurrences(xs: seq<string>): seq<string> {
    if |xs| == 0 then []
    else if xs[|xs| - 1] in FirstOccurrences(xs[..|xs| - 1]) then FirstOccurrences(xs[..|xs| - 1])
    else FirstOccurrences(xs[..|xs| - 1]) + [xs[|xs| - 1]]
  }

  /** `FirstOccurrences(xs)` holds each string of `xs` exactly once. */
  lemma {:induction false} FirstOccurrencesSpec(xs: seq<string>)
    ensures forall x :: x in FirstOccurrences(xs) <==> x in xs
    ensures forall i, j :: 0 <= i < j < |FirstOccurrences(xs)| ==> FirstOccurrences(xs)[i] != FirstOccurrences(xs)[j]
  {
    if |xs| > 0 {
      var init := xs[..|xs| - 1];
      FirstOccurrencesSpec(init);
      assert xs == init + [xs[|xs| - 1]];
    }
  }

  /**
   * `FirstOccurrences(xs)` is in order of first occurrence: an earlier string
   * occurs in `xs` at a place before which a later one has not yet occurred.
   */
  lemma {:induction false} FirstOccurrencesOrder(xs: seq<string>, a: nat, b: nat)
    requires a < b < |FirstOccurrences(xs)|
    ensures exists i :: 0 <= i < |xs| && xs[i] == FirstOccurrences(xs)[a] && FirstOccurrences(xs)[b] !in xs[..i]
  {
    var init := xs[..|xs| - 1];
    var d := FirstOccurrences(init);
    FirstOccurrencesSpec(init);
    if b < |d| {
      FirstOccurrencesOrder(init, a, b);
      var i :| 0 <= i < |init| && init[i] == d[a] && d[b] !in init[..i];
      assert xs[i] == init[i] && xs[..i] == init[..i];
    } else {
      assert FirstOccurrences(xs)[b] == xs[|xs| - 1] && xs[|xs| - 1] !in init;
      assert d[a] in d;
      var i :| 0 <= i < |init| && init[i] == d[a];
      assert xs[i] == init[i] && xs[..i] <= init;
    }
  }

  /** The strings of `ys` that are not in `xs`, in order. */
  function Unseen(ys: seq<string>, xs: seq<string>): seq<string> {
    if |ys| == 0 then []
    else Unseen(ys[..|ys| - 1], xs) + (if ys[|ys| - 1] in xs then [] else [ys[|ys| - 1]])
  }

  /** Only which strings `xs` holds matters to `Unseen`. */
  lemma {:induction false} UnseenMembers(ys: seq<string>, xs: seq<string>, zs: seq<string>)
    requires forall x :: x in xs <==> x in zs
    ensures Unseen(ys, xs) == Unseen(ys, zs)
  {
    if |ys| > 0 {
      UnseenMembers(ys[..|ys| - 1], xs, zs);
    }
  }

  /** Following `xs` by distinct strings `ys` adds those of `ys` not yet seen, in their order. */
  lemma {:induction false} FirstOccurrencesAppend(xs: seq<string>, ys: seq<string>)
    requires forall i, j :: 0 <= i < j < |ys| ==> ys[i] != ys[j]
    ensures FirstOccurrences(xs + ys) == FirstOccurrences(xs) + Unseen(ys, xs)
  {
    if |ys| == 0 {
      assert xs + ys == xs;
    } else {
      var init := ys[..|ys| - 1];
      var y := ys[|ys| - 1];
      FirstOccurrencesAppend(xs, init);
      assert (xs + ys)[..|xs + ys| - 1] == xs + init;
      FirstOccurrencesSpec(xs);
      UnseenSpec(init, xs);
      assert y !in init;
    }
  }

  /** `Unseen(ys, xs)` holds the strings of `ys` that `xs` lacks. */
  lemma {:induction false} UnseenSpec(ys: seq<string>, xs: seq<string>)
    ensures forall y :: y in Unseen(ys, xs) <==> y in ys && y !in xs
  {
    if |ys| > 0 {
      UnseenSpec(ys[..|ys| - 1], xs);
      assert ys == ys[..|ys| - 1] + [ys[|ys| - 1]];
    }
  }

  /** `c[x] += 1` for every `x` of `xs` in turn; from an empty Counter, `Counter(xs)`. */
  function Tally(c: Dict<nat>, xs: seq<string>): Dict<nat> {
    if |xs| == 0 then c else Increment(Tally(c, xs[..|xs| - 1]), xs[|xs| - 1])
  }

  /** Tallying two lists is tallying the first and then the second. */
  lemma {:induction false} TallyAppend(c: Dict<nat>, xs: seq<string>, ys: seq<string>)
    ensures Tally(c, xs + ys) == Tally(Tally(c, xs), ys)
  {
    if |ys| == 0 {
      assert xs + ys == xs;
    } else {
      TallyAppend(c, xs, ys[..|ys| - 1]);
      assert (xs + ys)[..|xs + ys| - 1] == xs + ys[..|ys| - 1];
    }
  }

  /** Tallying adds to each count the number of times the string occurs. */
  lemma {:induction false} TallyCounts(c: Dict<nat>, xs: seq<string>, x: string)
    ensures Get0(Tally(c, xs), x) == Get0(c, x) + multiset(xs)[x]
  {
    if |xs| > 0 {
      TallyCounts(c, xs[..|xs| - 1], x);
      assert xs == xs[..|xs| - 1] + [xs[|xs| - 1]];
    }
  }

  /** `Counter(xs)` is well formed and lists its keys in order of first occurrence. */
  lemma {:induction false} TallyKeys(xs: seq<string>)
    ensures Tally(Empty(), xs).Valid()
    ensures Tally(Empty(), xs).keys == FirstOccurrences(xs)
  {
    if |xs| > 0 {
      var init := xs[..|xs| - 1];
      TallyKeys(init);
      IncrementValid(Tally(Empty(), init), xs[|xs| - 1]);
    }
  }
}
