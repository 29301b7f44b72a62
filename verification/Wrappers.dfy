/** What the modules share: optional values, facts about collections and about division. */
module Wrappers {

  datatype Option<+T> = None | Some(value: T) {
    function Or(other: Option<T>): Option<T> {
      if this.Some? then this else other
    }
  }
}

module Collections {

  predicate Distinct<T(==)>(s: seq<T>) {
    forall i, j :: 0 <= i < j < |s| ==> s[i] != s[j]
  }

  function Members<T>(s: seq<T>): set<T> {
    set x | x in s
  }

  lemma SubsetSize<T>(small: set<T>, large: set<T>)
    requires small <= large
    ensures |small| <= |large|
    ensures |small| == |large| ==> small == large
  {
    var rest := large - small;
    assert large == small + rest;
    assert |large| == |small| + |rest|;
  }

  lemma SubmapSize<K, V>(small: map<K, V>, large: map<K, V>)
    requires small.Keys <= large.Keys
    ensures |small| <= |large|
    ensures |small| == |large| ==> small.Keys == large.Keys
  {
    SubsetSize(small.Keys, large.Keys);
  }
}

module Division {

  lemma QuotientBetween(total: nat, n: nat, low: nat, high: nat)
    requires n > 0 && n * low <= total <= n * high
    ensures low <= total / n <= high
  {
    var q := total / n;
    assert n * q <= total < n * (q + 1);
    Cancel(n, low, q + 1);
    Cancel(n, q, high + 1);
  }

  lemma Cancel(n: nat, a: int, b: int)
    requires n * a < n * b
    ensures a < b
  {
  }
}

/** As many different keys as are wanted. */
module Keys {

  /** Keys that differ in their length. */
  function Key(n: nat): string {
    seq(n, _ => 'k')
  }

  function FirstKeys(n: nat): set<string> {
    set i: nat | i < n :: Key(i)
  }

  lemma {:induction false} FirstKeysSize(n: nat)
    ensures |FirstKeys(n)| == n && Key(n) !in FirstKeys(n) && FirstKeys(n + 1) == FirstKeys(n) + {Key(n)}
  {
    if n > 0 {
      FirstKeysSize(n - 1);
    }
    assert forall i: nat :: i < n ==> |Key(i)| == i;
    assert |Key(n)| == n;
  }

  lemma OtherKey(n: nat)
    ensures "a" !in FirstKeys(n) && Key(n) != "a"
  {
    assert forall i: nat :: Key(i) != [] ==> Key(i)[0] == 'k';
  }
}
