/**
 * The Python collection idioms the pipeline uses, over Dafny values:
 * concatenating pages of results, and building a dictionary by assigning
 * keys in order (a later assignment to a key overwrites an earlier one, and a
 * key keeps the position of its first assignment in iteration order).
 */
module Collections {

  /** All pages of a paginated listing, one after the other. */
  function Flatten<T>(pages: seq<seq<T>>): (r: seq<T>)
    ensures |pages| == 0 ==> r == []
  {
    if pages == [] then [] else Flatten(pages[..|pages| - 1]) + pages[|pages| - 1]
  }

  /** A dictionary built by `d[k] = v` for each pair in turn. */
  function ToMap<K, V>(pairs: seq<(K, V)>): map<K, V> {
    if pairs == [] then map[]
    else
      var last := pairs[|pairs| - 1];
      ToMap(pairs[..|pairs| - 1])[last.0 := last.1]
  }

  /** The iteration order of that dictionary: each key where it was first assigned. */
  function KeyOrder<K(==), V>(pairs: seq<(K, V)>): seq<K> {
    if pairs == [] then []
    else
      var prefix := KeyOrder(pairs[..|pairs| - 1]);
      var k := pairs[|pairs| - 1].0;
      if k in prefix then prefix else prefix + [k]
  }

  predicate Distinct<T(==)>(s: seq<T>) {
    forall i, j :: 0 <= i < j < |s| ==> s[i] != s[j]
  }

  /** A key is in the dictionary exactly when some pair assigned it. */
  lemma {:induction false} ToMapKeys<K, V>(pairs: seq<(K, V)>, k: K)
    ensures k in ToMap(pairs) <==> exists i :: 0 <= i < |pairs| && pairs[i].0 == k
    decreases |pairs|
  {
    if pairs != [] {
      var n := |pairs| - 1;
      var prefix := pairs[..n];
      ToMapKeys(prefix, k);
      if k in ToMap(prefix) {
        var i :| 0 <= i < |prefix| && prefix[i].0 == k;
        assert pairs[i].0 == k;
      }
      if exists i :: 0 <= i < |pairs| && pairs[i].0 == k {
        var i :| 0 <= i < |pairs| && pairs[i].0 == k;
        if i < n {
          assert prefix[i].0 == k;
        }
      }
    }
  }

  /** Last write wins: the value of a key is the one of its last assignment. */
  lemma {:induction false} ToMapLastWrite<K, V>(pairs: seq<(K, V)>, i: nat)
    requires i < |pairs|
    requires forall j :: i < j < |pairs| ==> pairs[j].0 != pairs[i].0
    ensures pairs[i].0 in ToMap(pairs) && ToMap(pairs)[pairs[i].0] == pairs[i].1
    decreases |pairs|
  {
    var n := |pairs| - 1;
    if i < n {
      var prefix := pairs[..n];
      assert forall j :: i < j < |prefix| ==> prefix[j] == pairs[j];
      ToMapLastWrite(prefix, i);
      assert prefix[i] == pairs[i];
    }
  }

  /** The iteration order lists every key of the dictionary exactly once. */
  lemma {:induction false} KeyOrderIsKeys<K, V>(pairs: seq<(K, V)>)
    ensures Distinct(KeyOrder(pairs))
    ensures forall k :: k in KeyOrder(pairs) <==> k in ToMap(pairs)
    decreases |pairs|
  {
    if pairs != [] {
      KeyOrderIsKeys(pairs[..|pairs| - 1]);
    }
  }

  /** When every pair assigns a key the value `g(key)`, the dictionary maps every key to `g(key)`. */
  lemma {:induction false} ToMapFunctional<K, V>(pairs: seq<(K, V)>, g: K -> V)
    requires forall i :: 0 <= i < |pairs| ==> pairs[i].1 == g(pairs[i].0)
    ensures forall k :: k in ToMap(pairs) ==> ToMap(pairs)[k] == g(k)
    decreases |pairs|
  {
    if pairs != [] {
      ToMapFunctional(pairs[..|pairs| - 1], g);
    }
  }
}
