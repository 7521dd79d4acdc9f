/** An insertion-ordered dictionary, as Python's `dict` is: a list of key/value
    pairs in which storing an existing key replaces its value in place and storing
    a new key appends it. */
module PyDict {
  import opened Common

  /** Item -> rating, the only dictionary shape the rating index stores per user. */
  type Dict = seq<(ItemId, real)>

  function Keys(d: Dict): set<ItemId>
  {
    set p | p in d :: p.0
  }

  function Values(d: Dict): (vs: seq<real>)
    ensures |vs| == |d|
    ensures forall k :: 0 <= k < |d| ==> vs[k] == d[k].1
  {
    seq(|d|, k requires 0 <= k < |d| => d[k].1)
  }

  ghost predicate DistinctKeys(d: Dict)
  {
    forall i, j :: 0 <= i < j < |d| ==> d[i].0 != d[j].0
  }

  /** `d.get(k)`: the value stored under `k`, if any. */
  function Get(d: Dict, k: ItemId): (r: Option<real>)
    ensures r.Some? <==> k in Keys(d)
    ensures r.Some? ==> (k, r.value) in d
  {
    if d == [] then None
    else if d[0].0 == k then Some(d[0].1)
    else
      assert Keys(d) == {d[0].0} + Keys(d[1..]) by { assert d == [d[0]] + d[1..]; }
      Get(d[1..], k)
  }

  /** `d.get(k, default)`. */
  function GetOr(d: Dict, k: ItemId, default: real): (r: real)
    ensures k in Keys(d) ==> Get(d, k) == Some(r)
    ensures k !in Keys(d) ==> r == default
  {
    match Get(d, k)
    case Some(v) => v
    case None => default
  }

  /** `d[k] = v`. */
  function Put(d: Dict, k: ItemId, v: real): (r: Dict)
    ensures Keys(r) == Keys(d) + {k}
    ensures k !in Keys(d) ==> r == d + [(k, v)]
    ensures k in Keys(d) ==> |r| == |d|
  {
    if d == [] then [(k, v)]
    else
      assert Keys(d) == {d[0].0} + Keys(d[1..]) by { assert d == [d[0]] + d[1..]; }
      if d[0].0 == k then
        var r := [(k, v)] + d[1..];
        assert Keys(r) == {k} + Keys(d[1..]) by { assert r == [r[0]] + d[1..]; }
        r
      else
        var rest := Put(d[1..], k, v);
        var r := [d[0]] + rest;
        assert Keys(r) == {d[0].0} + Keys(rest) by { assert r[1..] == rest; }
        assert k !in Keys(d) ==> r == d + [(k, v)] by {
          if k !in Keys(d) { assert d == [d[0]] + d[1..]; }
        }
        r
  }

  /** Storing under a key already present keeps the key in its place and changes only
      its value, as Python's dict does. */
  lemma {:induction false} PutInPlace(d: Dict, k: ItemId, v: real)
    requires DistinctKeys(d) && k in Keys(d)
    ensures |Put(d, k, v)| == |d|
    ensures forall j :: 0 <= j < |d| ==> Put(d, k, v)[j] == (if d[j].0 == k then (k, v) else d[j])
  {
    assert Keys(d) == {d[0].0} + Keys(d[1..]) by { assert d == [d[0]] + d[1..]; }
    if d[0].0 == k {
      assert forall j :: 0 < j < |d| ==> d[j].0 != k;
    } else {
      assert DistinctKeys(d[1..]) by {
        forall i, j | 0 <= i < j < |d[1..]| ensures d[1..][i].0 != d[1..][j].0 {
          assert d[1..][i] == d[i + 1] && d[1..][j] == d[j + 1];
        }
      }
      PutInPlace(d[1..], k, v);
      var r := Put(d, k, v);
      assert r == [d[0]] + Put(d[1..], k, v);
      forall j | 0 <= j < |d| ensures r[j] == (if d[j].0 == k then (k, v) else d[j]) {
        if j > 0 {
          assert r[j] == Put(d[1..], k, v)[j - 1] && d[j] == d[1..][j - 1];
        }
      }
    }
  }

  /** After `d[k] = v`, looking up `k` gives `v` and every other key is unaffected. */
  lemma {:induction false} GetPut(d: Dict, k: ItemId, v: real, j: ItemId)
    ensures Get(Put(d, k, v), j) == if j == k then Some(v) else Get(d, j)
  {
    if d != [] && d[0].0 != k {
      GetPut(d[1..], k, v, j);
      assert Put(d, k, v)[1..] == Put(d[1..], k, v);
    } else if d != [] {
      assert Put(d, k, v)[1..] == d[1..];
    }
  }

  /** Storing into a dictionary keeps its keys distinct. */
  lemma {:induction false} PutDistinct(d: Dict, k: ItemId, v: real)
    requires DistinctKeys(d)
    ensures DistinctKeys(Put(d, k, v))
  {
    if d != [] {
      var tail := d[1..];
      assert DistinctKeys(tail) by {
        forall i, j | 0 <= i < j < |tail| ensures tail[i].0 != tail[j].0 {
          assert tail[i] == d[i + 1] && tail[j] == d[j + 1];
        }
      }
      HeadKeyNotInTail(d);
      if d[0].0 != k {
        PutDistinct(tail, k, v);
        ConsDistinct(d[0], Put(tail, k, v));
      } else {
        ConsDistinct((k, v), tail);
      }
    }
  }

  /** A pair whose key is not in a dictionary with distinct keys can be put in front. */
  lemma ConsDistinct(h: (ItemId, real), t: Dict)
    requires DistinctKeys(t) && h.0 !in Keys(t)
    ensures DistinctKeys([h] + t)
  {
    var r := [h] + t;
    forall i, j | 0 <= i < j < |r| ensures r[i].0 != r[j].0 {
      assert r[j] == t[j - 1];
      if i == 0 {
        assert t[j - 1] in t;
      } else {
        assert r[i] == t[i - 1];
      }
    }
  }

  lemma HeadKeyNotInTail(d: Dict)
    requires DistinctKeys(d) && d != []
    ensures d[0].0 !in Keys(d[1..])
  {
    forall p | p in d[1..] ensures p.0 != d[0].0 {
      var i :| 0 <= i < |d[1..]| && d[1..][i] == p;
      assert d[i + 1] == p;
    }
  }

  /** The dictionary that updating an empty one with each pair in turn leaves: a later
      pair replaces an earlier one with the same key. */
  function Updates<K, V>(pairs: seq<(K, V)>): map<K, V>
  {
    if pairs == [] then map[]
    else Updates(pairs[..|pairs| - 1])[pairs[|pairs| - 1].0 := pairs[|pairs| - 1].1]
  }

  /** `pairs[k]` is the last pair with key `key`. */
  ghost predicate LastWithKey<K, V>(pairs: seq<(K, V)>, k: int, key: K)
  {
    0 <= k < |pairs| && pairs[k].0 == key && forall k' :: k < k' < |pairs| ==> pairs[k'].0 != key
  }

  /** The keys are those of the pairs, and each maps to the value of its last pair. */
  lemma {:induction false} UpdatesEntries<K, V>(pairs: seq<(K, V)>)
    ensures forall key :: key in Updates(pairs) <==> exists k :: 0 <= k < |pairs| && pairs[k].0 == key
    ensures forall key :: key in Updates(pairs) ==>
      exists k :: LastWithKey(pairs, k, key) && Updates(pairs)[key] == pairs[k].1
  {
    if pairs != [] {
      var n := |pairs| - 1;
      var init := pairs[..n];
      UpdatesEntries(init);
      var m := Updates(pairs);
      assert m == Updates(init)[pairs[n].0 := pairs[n].1];
      assert LastWithKey(pairs, n, pairs[n].0);
      forall key | key in m && key != pairs[n].0
        ensures exists k :: LastWithKey(pairs, k, key) && m[key] == pairs[k].1
      {
        assert key in Updates(init);
        var k :| LastWithKey(init, k, key) && Updates(init)[key] == init[k].1;
        assert LastWithKey(pairs, k, key);
      }
      forall key ensures key in m <==> exists k :: 0 <= k < |pairs| && pairs[k].0 == key {
        if key in m && key != pairs[n].0 {
          assert key in Updates(init);
          var k :| 0 <= k < |init| && init[k].0 == key;
          assert pairs[k].0 == key;
        }
        if exists k :: 0 <= k < |pairs| && pairs[k].0 == key {
          var k :| 0 <= k < |pairs| && pairs[k].0 == key;
          if k < n {
            assert init[k].0 == key;
          }
        }
      }
    }
  }

  /** Updating with pairs whose values are transformed one by one leaves the same keys,
      each with the transformed value of the untransformed update. */
  lemma {:induction false} UpdatesMapped<K, V, W>(pairs: seq<(K, V)>, f: (K, V) -> W, mapped: seq<(K, W)>)
    requires |mapped| == |pairs|
    requires forall k :: 0 <= k < |pairs| ==> mapped[k] == (pairs[k].0, f(pairs[k].0, pairs[k].1))
    ensures Updates(mapped).Keys == Updates(pairs).Keys
    ensures forall key :: key in Updates(pairs) ==> Updates(mapped)[key] == f(key, Updates(pairs)[key])
  {
    if pairs != [] {
      var n := |pairs| - 1;
      UpdatesMapped(pairs[..n], f, mapped[..n]);
    }
  }
}
