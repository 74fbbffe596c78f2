/** Python's `dict(pairs)` and the loops of the form `d[key(x)] = x`: a map built from a
    sequence of key/value pairs, in order, so that a later pair for a key overrides an earlier one. */
module Dicts {

  function DictOf<K, V>(pairs: seq<(K, V)>): map<K, V>
  {
    if |pairs| == 0 then map[]
    else DictOf(pairs[..|pairs| - 1])[pairs[|pairs| - 1].0 := pairs[|pairs| - 1].1]
  }

  /** `i` is the last position of the pairs that carries key `k`. */
  ghost predicate LastWithKey<K, V>(pairs: seq<(K, V)>, k: K, i: int)
  {
    0 <= i < |pairs| && pairs[i].0 == k && forall j :: i < j < |pairs| ==> pairs[j].0 != k
  }

  /** The keys of the dictionary are exactly the keys of the pairs, and each key maps to the
      value of its last pair. */
  lemma {:induction false} DictOfSpec<K, V>(pairs: seq<(K, V)>)
    ensures forall k :: k in DictOf(pairs) <==> exists i :: 0 <= i < |pairs| && pairs[i].0 == k
    ensures forall k :: k in DictOf(pairs) ==>
      exists i :: LastWithKey(pairs, k, i) && DictOf(pairs)[k] == pairs[i].1
  {
    if |pairs| > 0 {
      var init := pairs[..|pairs| - 1];
      var last := pairs[|pairs| - 1];
      DictOfSpec(init);
      forall k ensures k in DictOf(pairs) <==> exists i :: 0 <= i < |pairs| && pairs[i].0 == k {
        if k in DictOf(init) {
          var i :| 0 <= i < |init| && init[i].0 == k;
          assert pairs[i] == init[i];
        }
        if exists i :: 0 <= i < |pairs| && pairs[i].0 == k {
          var i :| 0 <= i < |pairs| && pairs[i].0 == k;
          if i < |init| {
            assert init[i] == pairs[i];
          }
        }
      }
      forall k | k in DictOf(pairs)
        ensures exists i :: LastWithKey(pairs, k, i) && DictOf(pairs)[k] == pairs[i].1
      {
        if k == last.0 {
          assert LastWithKey(pairs, k, |pairs| - 1);
        } else {
          var i :| LastWithKey(init, k, i) && DictOf(init)[k] == init[i].1;
          assert pairs[i] == init[i];
          assert LastWithKey(pairs, k, i);
        }
      }
    }
  }

  /** Appending one pair is an assignment to its key. */
  lemma DictOfSnoc<K, V>(pairs: seq<(K, V)>, p: (K, V))
    ensures DictOf(pairs + [p]) == DictOf(pairs)[p.0 := p.1]
  {
    assert (pairs + [p])[..|pairs|] == pairs;
  }
}
