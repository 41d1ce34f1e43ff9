/**
 * The JavaScript `Map` built from a list of key/value pairs (`new Map(pairs)`):
 * a key that occurs several times is bound to the value of its LAST pair.
 * Every "previous rank" lookup of the tracker, the reports and the dashboard
 * widgets is built this way.
 */
module JsMap {

  /** True when no pair after index `i` has the key of pair `i`. */
  ghost predicate LastOfKey<K, V>(pairs: seq<(K, V)>, i: int)
    requires 0 <= i < |pairs|
  {
    forall j :: i < j < |pairs| ==> pairs[j].0 != pairs[i].0
  }

  /** `new Map(pairs)`: the pairs are entered in order, a later one overwriting an earlier one. */
  function FromPairs<K, V>(pairs: seq<(K, V)>): map<K, V>
  {
    if pairs == [] then map[]
    else FromPairs(pairs[..|pairs| - 1])[pairs[|pairs| - 1].0 := pairs[|pairs| - 1].1]
  }

  /** A key is bound exactly when some pair carries it. */
  lemma {:induction false} KeyIn<K, V>(pairs: seq<(K, V)>, k: K)
    ensures k in FromPairs(pairs) <==> exists i :: 0 <= i < |pairs| && pairs[i].0 == k
  {
    if pairs != [] {
      var init := pairs[..|pairs| - 1];
      KeyIn(init, k);
      assert forall i :: 0 <= i < |init| ==> init[i] == pairs[i];
      if k in FromPairs(init) {
        var i :| 0 <= i < |init| && init[i].0 == k;
        assert pairs[i].0 == k;
      }
    }
  }

  /** The value bound to the key of a pair that is the last with its key is that pair's value. */
  lemma {:induction false} LastWins<K, V>(pairs: seq<(K, V)>, i: int)
    requires 0 <= i < |pairs| && LastOfKey(pairs, i)
    ensures pairs[i].0 in FromPairs(pairs) && FromPairs(pairs)[pairs[i].0] == pairs[i].1
  {
    if i < |pairs| - 1 {
      var init := pairs[..|pairs| - 1];
      assert init[i] == pairs[i];
      assert LastOfKey(init, i) by {
        forall j | i < j < |init| ensures init[j].0 != init[i].0 {
          assert init[j] == pairs[j];
        }
      }
      LastWins(init, i);
      assert pairs[|pairs| - 1].0 != pairs[i].0;
    }
  }

  /** Every bound value is the value of some pair with that key. */
  lemma {:induction false} ValueFromPair<K, V>(pairs: seq<(K, V)>, k: K)
    requires k in FromPairs(pairs)
    ensures exists i :: 0 <= i < |pairs| && pairs[i] == (k, FromPairs(pairs)[k])
  {
    var init := pairs[..|pairs| - 1];
    var last := pairs[|pairs| - 1];
    if k != last.0 {
      ValueFromPair(init, k);
      var i :| 0 <= i < |init| && init[i] == (k, FromPairs(init)[k]);
      assert pairs[i] == init[i];
    } else {
      assert pairs[|pairs| - 1] == (k, FromPairs(pairs)[k]);
    }
  }

  /** With distinct keys every pair's value is what the map binds its key to. */
  lemma DistinctKeysLookup<K, V>(pairs: seq<(K, V)>, i: int)
    requires 0 <= i < |pairs|
    requires forall a, b :: 0 <= a < b < |pairs| ==> pairs[a].0 != pairs[b].0
    ensures pairs[i].0 in FromPairs(pairs) && FromPairs(pairs)[pairs[i].0] == pairs[i].1
  {
    LastWins(pairs, i);
  }
}
