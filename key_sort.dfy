// Ordering by a string key under a caller-supplied comparer: the ascending
// order of Enumerable.OrderBy (static serializer) and of the iteration of a
// SortedDictionary (JsonSorter). The comparer stands for .NET's
// culture-sensitive default string comparer.
module KeySort {
  // The culture-sensitive default string comparer, as "a sorts no later
  // than b".
  type Comparer = (string, string) -> bool

  ghost predicate TotalPreorder(leq: Comparer)
  {
    (forall a, b :: leq(a, b) || leq(b, a)) &&
    (forall a, b, c :: leq(a, b) && leq(b, c) ==> leq(a, c))
  }

  function Values<K, V>(ps: seq<(K, V)>): (vs: seq<V>)
    ensures |vs| == |ps| && forall i :: 0 <= i < |ps| ==> vs[i] == ps[i].1
  {
    if ps == [] then [] else [ps[0].1] + Values(ps[1..])
  }

  // Enumerable.OrderBy on the keys: a stable insertion sort.
  function InsertByKey<T>(x: (string, T), ys: seq<(string, T)>, leq: Comparer): (r: seq<(string, T)>)
    ensures multiset(r) == multiset(ys) + multiset{x}
  {
    if ys == [] || leq(x.0, ys[0].0) then [x] + ys
    else
      assert ys == [ys[0]] + ys[1..];
      [ys[0]] + InsertByKey(x, ys[1..], leq)
  }

  function SortByKey<T>(xs: seq<(string, T)>, leq: Comparer): (r: seq<(string, T)>)
    ensures multiset(r) == multiset(xs)
  {
    if xs == [] then []
    else
      assert xs == [xs[0]] + xs[1..];
      InsertByKey(xs[0], SortByKey(xs[1..], leq), leq)
  }

  lemma SortByKeyElements<T>(xs: seq<(string, T)>, leq: Comparer)
    ensures |SortByKey(xs, leq)| == |xs|
    ensures forall i :: 0 <= i < |xs| ==> SortByKey(xs, leq)[i] in multiset(xs)
  {
    var r := SortByKey(xs, leq);
    assert |r| == |multiset(r)| == |multiset(xs)| == |xs|;
    forall i | 0 <= i < |xs| ensures r[i] in multiset(xs) {
      assert r[i] in multiset(r);
    }
  }

  ghost predicate SortedByKey<T>(xs: seq<(string, T)>, leq: Comparer)
  {
    forall i, j :: 0 <= i < j < |xs| ==> leq(xs[i].0, xs[j].0)
  }

  lemma {:induction false} InsertByKeySorted<T>(x: (string, T), ys: seq<(string, T)>, leq: Comparer)
    requires TotalPreorder(leq) && SortedByKey(ys, leq)
    ensures SortedByKey(InsertByKey(x, ys, leq), leq)
  {
    if ys == [] || leq(x.0, ys[0].0) {
      var r := [x] + ys;
      forall i, j | 0 <= i < j < |r| ensures leq(r[i].0, r[j].0) {
        if i == 0 && j > 1 {
          assert leq(ys[0].0, ys[j - 1].0);
        }
      }
    } else {
      var rest := InsertByKey(x, ys[1..], leq);
      assert SortedByKey(ys[1..], leq) by {
        forall i, j | 0 <= i < j < |ys[1..]| ensures leq(ys[1..][i].0, ys[1..][j].0) {
          assert ys[1..][i] == ys[i + 1] && ys[1..][j] == ys[j + 1];
        }
      }
      InsertByKeySorted(x, ys[1..], leq);
      var r := [ys[0]] + rest;
      assert leq(ys[0].0, x.0);
      forall k | 0 <= k < |rest| ensures leq(ys[0].0, rest[k].0) {
        assert rest[k] in multiset(rest);
        assert rest[k] in multiset(ys[1..]) + multiset{x};
        if rest[k] != x {
          assert rest[k] in multiset(ys[1..]);
          var m :| 0 <= m < |ys[1..]| && ys[1..][m] == rest[k];
          assert ys[1..][m] == ys[m + 1];
        }
      }
      forall i, j | 0 <= i < j < |r| ensures leq(r[i].0, r[j].0) {
        if i == 0 {
          assert r[j] == rest[j - 1];
        } else {
          assert r[i] == rest[i - 1] && r[j] == rest[j - 1];
        }
      }
    }
  }

  // The text-ordered elements are the same elements, in ascending order of
  // their texts.
  lemma {:induction false} SortByKeySorted<T>(xs: seq<(string, T)>, leq: Comparer)
    requires TotalPreorder(leq)
    ensures SortedByKey(SortByKey(xs, leq), leq)
    ensures multiset(SortByKey(xs, leq)) == multiset(xs)
  {
    if xs != [] {
      SortByKeySorted(xs[1..], leq);
      InsertByKeySorted(xs[0], SortByKey(xs[1..], leq), leq);
    }
  }

  // No two keys are equivalent under the comparer (Compare(a, b) == 0 for
  // the .NET comparer): the condition under which a SortedDictionary
  // accepts every Add.
  ghost predicate KeysDistinct<T>(xs: seq<(string, T)>, leq: Comparer)
  {
    forall i, j :: 0 <= i < j < |xs| ==> !(leq(xs[i].0, xs[j].0) && leq(xs[j].0, xs[i].0))
  }

  lemma {:induction false} InsertByKeyDistinct<T>(x: (string, T), ys: seq<(string, T)>, leq: Comparer)
    requires KeysDistinct(ys, leq)
    requires forall y :: y in ys ==> !(leq(x.0, y.0) && leq(y.0, x.0))
    ensures KeysDistinct(InsertByKey(x, ys, leq), leq)
  {
    if ys == [] || leq(x.0, ys[0].0) {
      var r := [x] + ys;
      forall i, j | 0 <= i < j < |r| ensures !(leq(r[i].0, r[j].0) && leq(r[j].0, r[i].0)) {
        assert r[j] == ys[j - 1];
        if i > 0 {
          assert r[i] == ys[i - 1];
        }
      }
    } else {
      assert KeysDistinct(ys[1..], leq) by {
        forall i, j | 0 <= i < j < |ys[1..]|
          ensures !(leq(ys[1..][i].0, ys[1..][j].0) && leq(ys[1..][j].0, ys[1..][i].0))
        {
          assert ys[1..][i] == ys[i + 1] && ys[1..][j] == ys[j + 1];
        }
      }
      var rest := InsertByKey(x, ys[1..], leq);
      InsertByKeyDistinct(x, ys[1..], leq);
      var r := [ys[0]] + rest;
      forall k | 0 <= k < |rest| ensures !(leq(ys[0].0, rest[k].0) && leq(rest[k].0, ys[0].0)) {
        assert rest[k] in multiset(rest);
        if rest[k] != x {
          assert rest[k] in multiset(ys[1..]);
          var m :| 0 <= m < |ys[1..]| && ys[1..][m] == rest[k];
          assert ys[1..][m] == ys[m + 1];
        }
      }
      forall i, j | 0 <= i < j < |r| ensures !(leq(r[i].0, r[j].0) && leq(r[j].0, r[i].0)) {
        assert r[j] == rest[j - 1];
        if i > 0 {
          assert r[i] == rest[i - 1];
        }
      }
    }
  }

  lemma {:induction false} SortByKeyDistinct<T>(xs: seq<(string, T)>, leq: Comparer)
    requires KeysDistinct(xs, leq)
    ensures KeysDistinct(SortByKey(xs, leq), leq)
  {
    if xs != [] {
      assert KeysDistinct(xs[1..], leq) by {
        forall i, j | 0 <= i < j < |xs[1..]|
          ensures !(leq(xs[1..][i].0, xs[1..][j].0) && leq(xs[1..][j].0, xs[1..][i].0))
        {
          assert xs[1..][i] == xs[i + 1] && xs[1..][j] == xs[j + 1];
        }
      }
      SortByKeyDistinct(xs[1..], leq);
      var rest := SortByKey(xs[1..], leq);
      forall y | y in rest ensures !(leq(xs[0].0, y.0) && leq(y.0, xs[0].0)) {
        assert y in multiset(rest);
        assert y in multiset(xs[1..]);
        var m :| 0 <= m < |xs[1..]| && xs[1..][m] == y;
        assert xs[1..][m] == xs[m + 1];
      }
      InsertByKeyDistinct(xs[0], rest, leq);
    }
  }

  // Sorting what is already in key order changes nothing.
  lemma {:induction false} SortByKeyOfSorted<T>(xs: seq<(string, T)>, leq: Comparer)
    requires SortedByKey(xs, leq)
    ensures SortByKey(xs, leq) == xs
  {
    if xs != [] {
      assert SortedByKey(xs[1..], leq) by {
        forall i, j | 0 <= i < j < |xs[1..]| ensures leq(xs[1..][i].0, xs[1..][j].0) {
          assert xs[1..][i] == xs[i + 1] && xs[1..][j] == xs[j + 1];
        }
      }
      SortByKeyOfSorted(xs[1..], leq);
      if |xs| > 1 {
        assert leq(xs[0].0, xs[1].0);
      }
      assert [xs[0]] + xs[1..] == xs;
    }
  }
}
