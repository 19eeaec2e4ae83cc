/**
 * The JavaScript array idioms the ledger is written with — `filter`,
 * `reduce((acc, x) => acc + f(x), 0)`, `[...new Set(keys)]` — as functions over
 * sequences, with the facts about them that the ledger's proofs need.
 */
module Lists {

  /**
   * `r` is `xs` with some entries deleted: its entries occur in `xs` in the
   * same order. Matching each entry of `r` to the earliest equal entry of
   * `xs` that is still free decides this.
   */
  predicate SubseqOf<T(==)>(r: seq<T>, xs: seq<T>)
    decreases |xs|
  {
    if r == [] then true
    else if xs == [] then false
    else if r[0] == xs[0] then SubseqOf(r[1..], xs[1..])
    else SubseqOf(r, xs[1..])
  }

  /**
   * `xs.filter(p)`: the entries of `xs` that pass `p`, in their original order,
   * each as often as in `xs`.
   */
  function Filter<T(==,!new)>(xs: seq<T>, p: T -> bool): (r: seq<T>)
    ensures |r| <= |xs|
    ensures SubseqOf(r, xs)
    ensures forall x {:trigger multiset(r)[x]} :: multiset(r)[x] == if p(x) then multiset(xs)[x] else 0
    ensures forall x :: x in r <==> x in xs && p(x)
    ensures (forall i :: 0 <= i < |xs| ==> p(xs[i])) ==> r == xs
  {
    if xs == [] then []
    else
      assert xs == [xs[0]] + xs[1..];
      var rest := Filter(xs[1..], p);
      if p(xs[0]) then
        assert ([xs[0]] + rest)[1..] == rest;
        [xs[0]] + rest
      else
        assert rest != [] ==> rest[0] in rest && rest[0] != xs[0];
        rest
  }

  /** Filtering a list with a first entry: that entry is kept when it passes, then the rest is filtered. */
  lemma FilterCons<T(!new)>(x: T, xs: seq<T>, p: T -> bool)
    ensures Filter([x] + xs, p) == (if p(x) then [x] else []) + Filter(xs, p)
  {
    assert ([x] + xs)[1..] == xs;
  }

  /** Deleting entries never adds any: a sub-sequence holds each value at most as often. */
  lemma {:induction false} SubseqMultiset<T>(r: seq<T>, xs: seq<T>)
    requires SubseqOf(r, xs)
    ensures multiset(r) <= multiset(xs)
    decreases |xs|
  {
    if r != [] {
      assert xs == [xs[0]] + xs[1..];
      if r[0] == xs[0] {
        assert r == [r[0]] + r[1..];
        SubseqMultiset(r[1..], xs[1..]);
      } else {
        SubseqMultiset(r, xs[1..]);
      }
    }
  }

  /**
   * The order and multiplicity clauses of `Filter` pin its result down: any
   * sub-sequence of `xs` holding exactly the passing entries, as often as `xs`
   * does, is `Filter(xs, p)`.
   */
  lemma {:induction false} FilterUnique<T(!new)>(r: seq<T>, xs: seq<T>, p: T -> bool)
    requires SubseqOf(r, xs)
    requires forall x :: multiset(r)[x] == if p(x) then multiset(xs)[x] else 0
    ensures r == Filter(xs, p)
    decreases |xs|
  {
    if xs == [] {
      assert r == [];
    } else {
      var x, t := xs[0], xs[1..];
      assert xs == [x] + t;
      if p(x) {
        assert multiset(r)[x] == multiset(xs)[x] > 0;
        assert r != [];
        if r[0] != x {
          SubseqMultiset(r, t);
          assert false;
        }
        assert r == [x] + r[1..];
        FilterUnique(r[1..], t, p);
      } else {
        assert multiset(r)[x] == 0;
        if r != [] {
          assert r[0] in multiset(r);
        }
        FilterUnique(r, t, p);
      }
    }
  }

  /** Filtering distributes over concatenation, so the kept entries stay in their original order. */
  lemma {:induction false} FilterConcat<T(!new)>(a: seq<T>, b: seq<T>, p: T -> bool)
    ensures Filter(a + b, p) == Filter(a, p) + Filter(b, p)
    decreases |a|
  {
    if a == [] {
      assert a + b == b;
    } else {
      assert (a + b)[0] == a[0];
      assert (a + b)[1..] == a[1..] + b;
      FilterConcat(a[1..], b, p);
    }
  }

  /** `xs.reduce((acc, x) => acc + f(x), 0)`. */
  function Total<T>(xs: seq<T>, f: T -> real): (r: real)
    ensures (forall i :: 0 <= i < |xs| ==> f(xs[i]) >= 0.0) ==> r >= 0.0
  {
    if xs == [] then 0.0 else f(xs[0]) + Total(xs[1..], f)
  }

  lemma {:induction false} TotalConcat<T>(a: seq<T>, b: seq<T>, f: T -> real)
    ensures Total(a + b, f) == Total(a, f) + Total(b, f)
    decreases |a|
  {
    if a == [] {
      assert a + b == b;
    } else {
      assert (a + b)[0] == a[0];
      assert (a + b)[1..] == a[1..] + b;
      TotalConcat(a[1..], b, f);
    }
  }

  /** Integer version of Total, for stock counters. */
  function Count<T>(xs: seq<T>, f: T -> int): int
  {
    if xs == [] then 0 else f(xs[0]) + Count(xs[1..], f)
  }

  lemma {:induction false} CountConcat<T>(a: seq<T>, b: seq<T>, f: T -> int)
    ensures Count(a + b, f) == Count(a, f) + Count(b, f)
    decreases |a|
  {
    if a == [] {
      assert a + b == b;
    } else {
      assert (a + b)[0] == a[0];
      assert (a + b)[1..] == a[1..] + b;
      CountConcat(a[1..], b, f);
    }
  }

  /** Two lists whose entries agree pointwise on `f` have the same sum. */
  lemma {:induction false} CountPointwise<T>(a: seq<T>, b: seq<T>, f: T -> int, g: T -> int)
    requires |a| == |b|
    requires forall i :: 0 <= i < |a| ==> f(a[i]) == g(b[i])
    ensures Count(a, f) == Count(b, g)
    decreases |a|
  {
    if a != [] {
      CountPointwise(a[1..], b[1..], f, g);
    }
  }

  /** `xs.filter(x => key(x) === k)`: the entries whose key is `k`, in order, each as often as in `xs`. */
  function Where<T(==,!new), K(==)>(xs: seq<T>, key: T -> K, k: K): (r: seq<T>)
    ensures |r| <= |xs|
    ensures SubseqOf(r, xs)
    ensures forall x {:trigger multiset(r)[x]} :: multiset(r)[x] == if key(x) == k then multiset(xs)[x] else 0
    ensures forall x :: x in r <==> x in xs && key(x) == k
  {
    if xs == [] then []
    else
      assert xs == [xs[0]] + xs[1..];
      var rest := Where(xs[1..], key, k);
      if key(xs[0]) == k then
        assert ([xs[0]] + rest)[1..] == rest;
        [xs[0]] + rest
      else
        assert rest != [] ==> rest[0] in rest && rest[0] != xs[0];
        rest
  }

  /** No key occurs twice. */
  predicate NoDup<K(==)>(ks: seq<K>) {
    forall i, j :: 0 <= i < j < |ks| ==> ks[i] != ks[j]
  }

  /** Index of the first occurrence of `k` in `ks`. */
  function IndexOf<K(==)>(ks: seq<K>, k: K): (i: nat)
    requires k in ks
    ensures i < |ks| && ks[i] == k
    ensures forall j :: 0 <= j < i ==> ks[j] != k
  {
    if ks[0] == k then 0 else 1 + IndexOf(ks[1..], k)
  }

  lemma IndexOfPrefix<K>(ks: seq<K>, n: nat, k: K)
    requires n <= |ks| && k in ks[..n]
    ensures IndexOf(ks, k) == IndexOf(ks[..n], k)
  {
    var i := IndexOf(ks[..n], k);
    assert ks[..n][i] == ks[i];
    forall m | 0 <= m < i ensures ks[m] != k {
      assert ks[m] == ks[..n][m];
    }
  }

  /** `[...new Set(ks)]`: each key once, in order of first occurrence. */
  function Distinct<K(==,!new)>(ks: seq<K>): (r: seq<K>)
    ensures NoDup(r)
    ensures forall k :: k in r <==> k in ks
    ensures forall i, j :: 0 <= i < j < |r| ==> IndexOf(ks, r[i]) < IndexOf(ks, r[j])
  {
    if ks == [] then []
    else
      var init := ks[..|ks| - 1];
      var last := ks[|ks| - 1];
      var d := Distinct(init);
      assert ks == init + [last];
      forall k | k in d ensures IndexOf(ks, k) == IndexOf(init, k) {
        IndexOfPrefix(ks, |ks| - 1, k);
      }
      if last in d then d
      else
        assert IndexOf(ks, last) == |ks| - 1;
        d + [last]
  }

  /** Sum, over the keys `ks`, of the per-key totals of `xs`. */
  function GroupedTotal<T(==,!new), K(==)>(xs: seq<T>, key: T -> K, f: T -> real, ks: seq<K>): real
  {
    if ks == [] then 0.0 else Total(Where(xs, key, ks[0]), f) + GroupedTotal(xs, key, f, ks[1..])
  }

  lemma {:induction false} GroupedTotalStep<T(!new), K>(xs: seq<T>, key: T -> K, f: T -> real, ks: seq<K>)
    requires xs != [] && NoDup(ks)
    ensures GroupedTotal(xs, key, f, ks)
         == GroupedTotal(xs[1..], key, f, ks) + (if key(xs[0]) in ks then f(xs[0]) else 0.0)
    decreases |ks|
  {
    if ks != [] {
      assert NoDup(ks[1..]) by {
        forall i, j | 0 <= i < j < |ks| - 1 ensures ks[1..][i] != ks[1..][j] {
          assert ks[1..][i] == ks[i + 1] && ks[1..][j] == ks[j + 1];
        }
      }
      if ks[0] == key(xs[0]) {
        assert key(xs[0]) !in ks[1..] by {
          forall j | 0 <= j < |ks| - 1 ensures ks[1..][j] != ks[0] {
            assert ks[1..][j] == ks[j + 1];
          }
        }
      }
      GroupedTotalStep(xs, key, f, ks[1..]);
    }
  }

  /**
   * Grouping by key neither loses nor double-counts: when every entry's key is
   * among the distinct keys `ks`, the group totals add up to the overall total.
   */
  lemma {:induction false} GroupedTotalPartition<T(!new), K>(xs: seq<T>, key: T -> K, f: T -> real, ks: seq<K>)
    requires NoDup(ks)
    requires forall i :: 0 <= i < |xs| ==> key(xs[i]) in ks
    ensures GroupedTotal(xs, key, f, ks) == Total(xs, f)
    decreases |xs|
  {
    if xs == [] {
      GroupedTotalEmpty(key, f, ks);
    } else {
      GroupedTotalStep(xs, key, f, ks);
      GroupedTotalPartition(xs[1..], key, f, ks);
    }
  }

  lemma {:induction false} GroupedTotalEmpty<T(!new), K>(key: T -> K, f: T -> real, ks: seq<K>)
    ensures GroupedTotal([], key, f, ks) == 0.0
    decreases |ks|
  {
    if ks != [] {
      GroupedTotalEmpty(key, f, ks[1..]);
    }
  }
}
