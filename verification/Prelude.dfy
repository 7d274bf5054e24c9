/** Small vocabulary shared by the component models. */
module Prelude {

  datatype Option<+T> = None | Some(value: T)

  function Min(a: int, b: int): int {
    if a <= b then a else b
  }

  function Max(a: int, b: int): int {
    if a <= b then b else a
  }

  /** No value occurs twice. */
  ghost predicate NoDup<T(!new)>(s: seq<T>) {
    forall i, j | 0 <= i < j < |s| :: s[i] != s[j]
  }

  /** Sum of the values of a finite map. */
  ghost function Sum<K>(m: map<K, int>): int
    decreases |m|
  {
    if m == map[] then 0
    else
      var k :| k in m;
      m[k] + Sum(m - {k})
  }

  /** The order in which keys are consumed does not matter. */
  lemma {:induction false} SumSplit<K>(m: map<K, int>, k: K)
    requires k in m
    ensures Sum(m) == m[k] + Sum(m - {k})
    decreases |m|
  {
    var c :| c in m && Sum(m) == m[c] + Sum(m - {c});
    if c != k {
      SumSplit(m - {c}, k);
      SumSplit(m - {k}, c);
      assert m - {c} - {k} == m - {k} - {c};
    }
  }

  lemma SumUpdate<K>(m: map<K, int>, k: K, v: int)
    ensures Sum(m[k := v]) == Sum(m - {k}) + v
    ensures k !in m ==> m - {k} == m
  {
    SumSplit(m[k := v], k);
    assert m[k := v] - {k} == m - {k};
  }

  /** A sum of non-negative values is non-negative and bounds each value. */
  lemma {:induction false} SumBounds<K>(m: map<K, int>)
    requires forall k <- m :: m[k] >= 0
    ensures Sum(m) >= 0
    ensures forall k <- m :: m[k] <= Sum(m)
    decreases |m|
  {
    if m != map[] {
      var c :| c in m && Sum(m) == m[c] + Sum(m - {c});
      SumBounds(m - {c});
      forall k | k in m ensures m[k] <= Sum(m) {
        if k != c { assert (m - {c})[k] <= Sum(m - {c}); }
      }
    }
  }
}
