/** Ranking of scored lists as the source does it everywhere:
    `xs.sort(key=score, reverse=True)` followed by the slice `xs[:limit]`.
    Python's sort is stable also with `reverse=True`, so entries with equal scores keep
    the order in which they were listed. */
module Ranking {
  import opened Common

  /** The score of a scored pair, `x[1]`. */
  function Score<K>(p: (K, real)): real
  {
    p.1
  }

  ghost predicate SortedDesc<T>(s: seq<T>, key: T -> real)
  {
    forall i, j :: 0 <= i < j < |s| ==> key(s[i]) >= key(s[j])
  }

  /** The entries of `s` whose score is exactly `v`, in their order in `s`. */
  function WithScore<T>(s: seq<T>, key: T -> real, v: real): seq<T>
  {
    if s == [] then [] else (if key(s[0]) == v then [s[0]] else []) + WithScore(s[1..], key, v)
  }

  lemma {:induction false} WithScoreAppend<T>(a: seq<T>, b: seq<T>, key: T -> real, v: real)
    ensures WithScore(a + b, key, v) == WithScore(a, key, v) + WithScore(b, key, v)
  {
    if a != [] {
      assert (a + b)[1..] == a[1..] + b;
      WithScoreAppend(a[1..], b, key, v);
    } else {
      assert a + b == b;
    }
  }

  /** Inserts `x`, which comes after every entry of `sorted` in the input, behind all
      entries that score at least as much. */
  function Insert<T>(sorted: seq<T>, x: T, key: T -> real): seq<T>
  {
    if sorted == [] then [x]
    else if key(sorted[0]) >= key(x) then [sorted[0]] + Insert(sorted[1..], x, key)
    else [x] + sorted
  }

  function SortDesc<T>(s: seq<T>, key: T -> real): seq<T>
  {
    if s == [] then [] else Insert(SortDesc(s[..|s| - 1], key), s[|s| - 1], key)
  }

  /** `x` lands right after the entries of `sorted` that score at least as much as `x`
      and before the first one that scores less. */
  lemma {:induction false} InsertAt<T>(sorted: seq<T>, x: T, key: T -> real, i: nat)
    requires i <= |sorted|
    requires forall k :: 0 <= k < i ==> key(sorted[k]) >= key(x)
    requires i < |sorted| ==> key(sorted[i]) < key(x)
    ensures Insert(sorted, x, key) == sorted[..i] + [x] + sorted[i..]
  {
    if i > 0 {
      var rest := sorted[1..];
      assert forall k :: 0 <= k < i - 1 ==> key(rest[k]) >= key(x) by {
        forall k | 0 <= k < i - 1 ensures key(rest[k]) >= key(x) {
          assert rest[k] == sorted[k + 1];
        }
      }
      assert i - 1 < |rest| ==> key(rest[i - 1]) < key(x) by {
        if i - 1 < |rest| {
          assert rest[i - 1] == sorted[i];
        }
      }
      InsertAt(rest, x, key, i - 1);
      assert Insert(sorted, x, key) == [sorted[0]] + Insert(rest, x, key) by {
        assert key(sorted[0]) >= key(x);
      }
      assert sorted[..i] == [sorted[0]] + rest[..i - 1] by {
        forall k | 0 <= k < i ensures sorted[..i][k] == ([sorted[0]] + rest[..i - 1])[k] {
          if k > 0 { assert rest[k - 1] == sorted[k]; }
        }
      }
      assert sorted[i..] == rest[i - 1..] by {
        forall k | 0 <= k < |sorted| - i ensures sorted[i..][k] == rest[i - 1..][k] {
          assert rest[i - 1 + k] == sorted[i + k];
        }
      }
      assert [sorted[0]] + (rest[..i - 1] + [x] + rest[i - 1..]) == [sorted[0]] + rest[..i - 1] + [x] + rest[i - 1..];
    } else {
      assert sorted[..0] == [] && sorted[0..] == sorted;
    }
  }

  lemma {:induction false} InsertMultiset<T>(t: seq<T>, x: T, key: T -> real)
    ensures multiset(Insert(t, x, key)) == multiset(t) + multiset{x}
  {
    if t != [] && key(t[0]) >= key(x) {
      InsertMultiset(t[1..], x, key);
      assert t == [t[0]] + t[1..];
    }
  }

  lemma {:induction false} InsertSorted<T>(t: seq<T>, x: T, key: T -> real)
    requires SortedDesc(t, key)
    ensures SortedDesc(Insert(t, x, key), key)
  {
    if t != [] && key(t[0]) >= key(x) {
      var tail := t[1..];
      var rest := Insert(tail, x, key);
      forall i, j | 0 <= i < j < |tail| ensures key(tail[i]) >= key(tail[j]) {
        assert tail[i] == t[i + 1] && tail[j] == t[j + 1];
      }
      InsertSorted(tail, x, key);
      forall k | 0 <= k < |tail| ensures key(tail[k]) <= key(t[0]) {
        assert tail[k] == t[k + 1];
      }
      InsertBelow(tail, x, key, key(t[0]));
      var r := [t[0]] + rest;
      assert Insert(t, x, key) == r;
      forall i, j | 0 <= i < j < |r| ensures key(r[i]) >= key(r[j]) {
        assert r[j] == rest[j - 1];
        if i > 0 {
          assert r[i] == rest[i - 1];
        }
      }
    }
  }

  /** Inserting an entry into a list, none of whose scores exceed `b`, gives a list none
      of whose scores exceed `b`, when the entry's does not either. */
  lemma {:induction false} InsertBelow<T>(t: seq<T>, x: T, key: T -> real, b: real)
    requires forall k :: 0 <= k < |t| ==> key(t[k]) <= b
    requires key(x) <= b
    ensures forall k :: 0 <= k < |Insert(t, x, key)| ==> key(Insert(t, x, key)[k]) <= b
  {
    var r := Insert(t, x, key);
    if t != [] && key(t[0]) >= key(x) {
      var tail := t[1..];
      forall k | 0 <= k < |tail| ensures key(tail[k]) <= b {
        assert tail[k] == t[k + 1];
      }
      InsertBelow(tail, x, key, b);
      assert r == [t[0]] + Insert(tail, x, key);
      forall k | 0 < k < |r| ensures key(r[k]) <= b {
        assert r[k] == Insert(tail, x, key)[k - 1];
      }
    } else if t != [] {
      assert r == [x] + t;
      forall k | 0 < k < |r| ensures key(r[k]) <= b {
        assert r[k] == t[k - 1];
      }
    }
  }

  lemma {:induction false} InsertWithScore<T>(t: seq<T>, x: T, key: T -> real, v: real)
    requires SortedDesc(t, key)
    ensures WithScore(Insert(t, x, key), key, v) == WithScore(t, key, v) + (if key(x) == v then [x] else [])
  {
    var r := Insert(t, x, key);
    var hx: seq<T> := if key(x) == v then [x] else [];
    if t == [] {
      assert r == [x];
      assert WithScore(r, key, v) == hx + WithScore(r[1..], key, v);
    } else {
      var ht: seq<T> := if key(t[0]) == v then [t[0]] else [];
      assert WithScore(t, key, v) == ht + WithScore(t[1..], key, v);
      if key(t[0]) >= key(x) {
        assert SortedDesc(t[1..], key);
        InsertWithScore(t[1..], x, key, v);
        assert r == [t[0]] + Insert(t[1..], x, key);
        assert r[0] == t[0] && r[1..] == Insert(t[1..], x, key);
        assert WithScore(r, key, v) == ht + WithScore(r[1..], key, v);
      } else {
        assert r == [x] + t;
        assert r[0] == x && r[1..] == t;
        assert WithScore(r, key, v) == hx + WithScore(t, key, v);
        if key(x) == v {
          AllBelow(t, key, v);
        }
      }
    }
  }

  /** A sorted list whose first score is below `v` has no entry scoring `v`. */
  lemma {:induction false} AllBelow<T>(t: seq<T>, key: T -> real, v: real)
    requires SortedDesc(t, key)
    requires t != [] ==> key(t[0]) < v
    ensures WithScore(t, key, v) == []
  {
    if t != [] {
      assert SortedDesc(t[1..], key);
      AllBelow(t[1..], key, v);
    }
  }

  /** The sort returns a non-increasing permutation of its input in which equally scored
      entries keep their input order. */
  lemma SortDescFacts<T>(s: seq<T>, key: T -> real)
    ensures SortedDesc(SortDesc(s, key), key)
    ensures multiset(SortDesc(s, key)) == multiset(s)
    ensures forall v :: WithScore(SortDesc(s, key), key, v) == WithScore(s, key, v)
  {
    SortDescSorted(s, key);
    SortDescPermutes(s, key);
    forall v ensures WithScore(SortDesc(s, key), key, v) == WithScore(s, key, v) {
      SortDescStable(s, key, v);
    }
  }

  lemma {:induction false} SortDescSorted<T>(s: seq<T>, key: T -> real)
    ensures SortedDesc(SortDesc(s, key), key)
  {
    if s != [] {
      SortDescSorted(s[..|s| - 1], key);
      InsertSorted(SortDesc(s[..|s| - 1], key), s[|s| - 1], key);
    }
  }

  lemma {:induction false} SortDescPermutes<T>(s: seq<T>, key: T -> real)
    ensures multiset(SortDesc(s, key)) == multiset(s)
  {
    if s != [] {
      var init := s[..|s| - 1];
      var x := s[|s| - 1];
      SortDescPermutes(init, key);
      InsertMultiset(SortDesc(init, key), x, key);
      assert s == init + [x];
    }
  }

  lemma {:induction false} SortDescStable<T>(s: seq<T>, key: T -> real, v: real)
    ensures WithScore(SortDesc(s, key), key, v) == WithScore(s, key, v)
  {
    if s != [] {
      var init := s[..|s| - 1];
      var x := s[|s| - 1];
      var hx: seq<T> := if key(x) == v then [x] else [];
      assert WithScore(SortDesc(s, key), key, v) == WithScore(SortDesc(init, key), key, v) + hx by {
        assert SortDesc(s, key) == Insert(SortDesc(init, key), x, key);
        SortDescSorted(init, key);
        InsertWithScore(SortDesc(init, key), x, key, v);
      }
      assert WithScore(SortDesc(init, key), key, v) == WithScore(init, key, v) by {
        SortDescStable(init, key, v);
      }
      assert WithScore(s, key, v) == WithScore(init, key, v) + hx by {
        assert s == init + [x];
        WithScoreAppend(init, [x], key, v);
        assert WithScore([x], key, v) == hx + WithScore([x][1..], key, v);
      }
    }
  }

  lemma {:induction false} WithScorePrefix<T>(s: seq<T>, n: nat, key: T -> real, v: real)
    requires n <= |s|
    ensures WithScore(s[..n], key, v) <= WithScore(s, key, v)
  {
    assert s == s[..n] + s[n..];
    WithScoreAppend(s[..n], s[n..], key, v);
  }

  /** `r` is what `sorted(s, reverse=True)[:limit]` returns: non-increasing, drawn from
      `s`, as long as the slice allows, never leaving out an entry that scores more than
      one it keeps, and among equal scores keeping those listed first. */
  ghost predicate IsTopSelection<T>(r: seq<T>, s: seq<T>, key: T -> real, limit: int)
  {
    && SortedDesc(r, key)
    && multiset(r) <= multiset(s)
    && |r| == SliceEnd(|s|, limit)
    && (forall x, y :: x in s && x !in r && y in r ==> key(y) >= key(x))
    && (forall v :: WithScore(r, key, v) <= WithScore(s, key, v))
  }

  lemma SortDescLength<T>(s: seq<T>, key: T -> real)
    ensures |SortDesc(s, key)| == |s|
  {
    SortDescFacts(s, key);
    assert |multiset(SortDesc(s, key))| == |multiset(s)|;
  }

  /** Everything a prefix of a sorted list leaves out scores no more than what it keeps. */
  lemma PrefixDominates<T>(sorted: seq<T>, n: nat, key: T -> real)
    requires n <= |sorted| && SortedDesc(sorted, key)
    ensures forall x, y :: x in sorted && x !in sorted[..n] && y in sorted[..n] ==> key(y) >= key(x)
  {
    forall x, y | x in sorted && x !in sorted[..n] && y in sorted[..n] ensures key(y) >= key(x) {
      var j :| 0 <= j < |sorted| && sorted[j] == x;
      var i :| 0 <= i < n && sorted[..n][i] == y;
      assert sorted[i] == y;
    }
  }

  lemma PrefixMultiset<T>(s: seq<T>, n: nat)
    requires n <= |s|
    ensures multiset(s[..n]) <= multiset(s)
  {
    assert s == s[..n] + s[n..];
  }

  /** Sorting a scored list and slicing it yields a top selection of the list. */
  lemma TopOfSorted<T>(s: seq<T>, key: T -> real, limit: int)
    ensures IsTopSelection(PySlice(SortDesc(s, key), limit), s, key, limit)
  {
    var sorted := SortDesc(s, key);
    SortDescFacts(s, key);
    SortDescLength(s, key);
    var n := SliceEnd(|s|, limit);
    var r := PySlice(sorted, limit);
    assert r == sorted[..n];
    PrefixMultiset(sorted, n);
    PrefixDominates(sorted, n, key);
    assert forall x :: x in s <==> x in sorted by {
      forall x ensures x in s <==> x in sorted {
        assert x in s <==> x in multiset(s);
        assert x in sorted <==> x in multiset(sorted);
      }
    }
    forall v ensures WithScore(r, key, v) <= WithScore(s, key, v) {
      WithScorePrefix(sorted, n, key, v);
    }
  }

  /** `[(key, score(u, key)) for key in keys]`: the keys scored for one user or group. */
  function Scored<U, K>(keys: seq<K>, u: U, score: (U, K) -> real): (r: seq<(K, real)>)
    ensures |r| == |keys|
    ensures forall k :: 0 <= k < |r| ==> r[k] == (keys[k], score(u, keys[k]))
  {
    seq(|keys|, k requires 0 <= k < |keys| => (keys[k], score(u, keys[k])))
  }

  /** The scored keys sorted by score, highest first and ties in key order, cut to `limit`. */
  function TopScored<U, K>(keys: seq<K>, u: U, score: (U, K) -> real, limit: int)
    : (r: seq<(K, real)>)
    ensures IsTopSelection(r, Scored(keys, u, score), Score, limit)
    ensures forall p :: p in r ==> p.0 in keys && p.1 == score(u, p.0)
    ensures limit >= 0 ==> |r| == Min(limit, |keys|)
  {
    var scored := Scored(keys, u, score);
    TopOfSorted(scored, Score, limit);
    var r := PySlice(SortDesc(scored, Score), limit);
    assert forall p :: p in r ==> p in scored by {
      forall p | p in r ensures p in scored {
        assert p in multiset(r);
      }
    }
    r
  }
}
