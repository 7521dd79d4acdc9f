/** Basic vocabulary shared by every component of the recommender: identifiers,
    rating rows, errors the source raises, sums over lists of reals and the
    semantics of Python's list slices. */
module Common {

  type UserId = int
  type ItemId = int

  /** One `(user, item, rating)` row of the rating list. */
  datatype Row = Row(user: UserId, item: ItemId, rating: real)

  datatype Option<T> = None | Some(value: T)

  /** The Python exceptions that the modelled code can raise without handling them. */
  datatype PyError = ZeroDivisionError | ValueError

  datatype Result<T> = Ok(value: T) | Err(error: PyError)

  function Abs(x: real): (r: real)
    ensures r >= 0.0 && (r == x || r == -x)
  {
    if x < 0.0 then -x else x
  }

  lemma MulNonNegative(a: real, b: real)
    requires a >= 0.0 && b >= 0.0
    ensures a * b >= 0.0
  {
  }

  function Min(a: int, b: int): int { if a <= b then a else b }
  function Max(a: int, b: int): int { if a >= b then a else b }

  /** Python's `sum` over a list of reals, accumulated left to right. */
  function Sum(s: seq<real>): real
  {
    if s == [] then 0.0 else Sum(s[..|s| - 1]) + s[|s| - 1]
  }

  lemma {:induction false} SumAppend(a: seq<real>, b: seq<real>)
    ensures Sum(a + b) == Sum(a) + Sum(b)
    decreases |b|
  {
    if b == [] {
      assert a + b == a;
    } else {
      assert (a + b)[..|a + b| - 1] == a + b[..|b| - 1];
      SumAppend(a, b[..|b| - 1]);
    }
  }

  /** A sum ignores the order of its terms. */
  lemma {:induction false} SumPermutation(a: seq<real>, b: seq<real>)
    requires multiset(a) == multiset(b)
    ensures Sum(a) == Sum(b)
    decreases |a|
  {
    if a == [] {
      assert |b| == |multiset(b)| == 0;
    } else {
      var x := a[|a| - 1];
      var init := a[..|a| - 1];
      assert a == init + [x];
      var j := LocateAndRemove(init, x, b);
      SumPermutation(init, b[..j] + b[j + 1..]);
      assert b == b[..j] + [x] + b[j + 1..];
      SumAppend(b[..j] + [x], b[j + 1..]);
      SumAppend(b[..j], [x]);
      SumAppend(b[..j], b[j + 1..]);
      assert [x][..0] == [];
    }
  }

  /** A sum of non-negative terms is non-negative, and it is 0 exactly when every term is. */
  lemma {:induction false} SumNonNegative(s: seq<real>)
    requires forall k :: 0 <= k < |s| ==> s[k] >= 0.0
    ensures Sum(s) >= 0.0
    ensures Sum(s) == 0.0 <==> forall k :: 0 <= k < |s| ==> s[k] == 0.0
  {
    if s != [] {
      var init := s[..|s| - 1];
      assert forall k :: 0 <= k < |init| ==> init[k] == s[k];
      SumNonNegative(init);
    }
  }

  lemma SumOfTwo(a: real, b: real)
    ensures Sum([a, b]) == a + b
  {
    assert Sum([a]) == a by {
      assert [a][..0] == [];
    }
    assert [a, b][..1] == [a];
  }

  lemma SumOfThree(a: real, b: real, c: real)
    ensures Sum([a, b, c]) == a + b + c
  {
    SumOfTwo(a, b);
    assert [a, b, c][..2] == [a, b];
  }

  /** A sum of terms that all lie in [lo, hi] lies in [n*lo, n*hi]. */
  lemma {:induction false} SumBounds(s: seq<real>, lo: real, hi: real)
    requires forall k :: 0 <= k < |s| ==> lo <= s[k] <= hi
    ensures (|s| as real) * lo <= Sum(s) <= (|s| as real) * hi
  {
    if s != [] {
      SumBounds(s[..|s| - 1], lo, hi);
      assert (|s| as real) * lo == ((|s| - 1) as real) * lo + lo;
      assert (|s| as real) * hi == ((|s| - 1) as real) * hi + hi;
    }
  }

  /** The sum of `f` over a finite set of ids, taken in an unspecified order: what summing
      a list comprehension over a Python dict or set yields, up to floating-point effects. */
  ghost function SumOver(s: set<int>, f: int -> real): real
    decreases s
  {
    if s == {} then 0.0 else HasElement(s); var x :| x in s; f(x) + SumOver(s - {x}, f)
  }

  lemma HasElement(s: set<int>)
    requires s != {}
    ensures exists x :: x in s
  {
    if forall x :: x !in s {
      assert false;
    }
  }

  lemma {:induction false} SumOverNonNegative(s: set<int>, f: int -> real)
    requires forall x :: x in s ==> f(x) >= 0.0
    ensures SumOver(s, f) >= 0.0
    decreases s
  {
    if s != {} {
      HasElement(s);
      var x :| x in s && SumOver(s, f) == f(x) + SumOver(s - {x}, f);
      SumOverNonNegative(s - {x}, f);
    }
  }

  /** Sums of two functions that agree on the set are equal. */
  lemma {:induction false} SumOverCongruent(s: set<int>, f: int -> real, g: int -> real)
    requires forall x :: x in s ==> f(x) == g(x)
    ensures SumOver(s, f) == SumOver(s, g)
    decreases s
  {
    if s != {} {
      HasElement(s);
      var x :| x in s && SumOver(s, f) == f(x) + SumOver(s - {x}, f) && SumOver(s, g) == g(x) + SumOver(s - {x}, g);
      SumOverCongruent(s - {x}, f, g);
    }
  }

  /** The largest element of a non-empty list (Python's `max`). */
  function MaxOf(s: seq<real>): (m: real)
    requires |s| > 0
    ensures (forall k :: 0 <= k < |s| ==> s[k] <= m) && exists k :: 0 <= k < |s| && s[k] == m
  {
    if |s| == 1 then s[0]
    else
      var m' := MaxOf(s[..|s| - 1]);
      assert forall k :: 0 <= k < |s| - 1 ==> s[..|s| - 1][k] == s[k];
      if s[|s| - 1] > m' then s[|s| - 1] else m'
  }

  /** The smallest element of a non-empty list (Python's `min`). */
  function MinOf(s: seq<real>): (m: real)
    requires |s| > 0
    ensures (forall k :: 0 <= k < |s| ==> m <= s[k]) && exists k :: 0 <= k < |s| && s[k] == m
  {
    if |s| == 1 then s[0]
    else
      var m' := MinOf(s[..|s| - 1]);
      assert forall k :: 0 <= k < |s| - 1 ==> s[..|s| - 1][k] == s[k];
      if s[|s| - 1] < m' then s[|s| - 1] else m'
  }

  /** The mean of a non-empty list lies between its smallest and its largest element. */
  lemma MeanBounds(s: seq<real>)
    requires |s| > 0
    ensures MinOf(s) <= Sum(s) / (|s| as real) <= MaxOf(s)
  {
    MeanWithin(s, MinOf(s), MaxOf(s));
  }

  lemma MeanWithin(s: seq<real>, lo: real, hi: real)
    requires |s| > 0
    requires forall k :: 0 <= k < |s| ==> lo <= s[k] <= hi
    ensures lo <= Sum(s) / (|s| as real) <= hi
  {
    SumBounds(s, lo, hi);
    DivBounds(Sum(s), |s| as real, lo, hi);
  }

  lemma DivBounds(total: real, n: real, lo: real, hi: real)
    requires n > 0.0 && n * lo <= total <= n * hi
    ensures lo <= total / n <= hi
  {
    assert total / n * n == total;
  }

  /** Length of the Python slice `s[:k]` of a list of length n. */
  function SliceEnd(n: nat, k: int): (e: nat)
    ensures e <= n
    ensures k >= 0 ==> e == Min(k, n)
    ensures k < 0 ==> e == Max(0, n + k)
  {
    if k >= 0 then Min(k, n) else Max(0, n + k)
  }

  /** Python's `s[:k]`: a prefix, and for a negative `k` all but the last `-k` elements. */
  function PySlice<T>(s: seq<T>, k: int): (r: seq<T>)
    ensures |r| == SliceEnd(|s|, k) && r == s[..|r|]
  {
    s[..SliceEnd(|s|, k)]
  }

  /** Python's `s[k:]`: a suffix, and for a negative `k` the last `-k` elements. */
  function PySliceFrom<T>(s: seq<T>, k: int): (r: seq<T>)
    ensures |r| <= |s| && r == s[|s| - |r|..]
    ensures k >= 0 ==> |r| == Max(0, |s| - k)
    ensures k < 0 ==> |r| == Min(-k, |s|)
  {
    s[SliceEnd(|s|, k)..]
  }

  ghost predicate NoDuplicates<T>(xs: seq<T>)
  {
    forall i, j :: 0 <= i < j < |xs| ==> xs[i] != xs[j]
  }

  /** `xs` lists every element of `s` exactly once: what `list(s)` yields for a Python set. */
  ghost predicate Enumerates<T>(xs: seq<T>, s: set<T>)
  {
    NoDuplicates(xs) && (forall x :: x in xs ==> x in s) && (forall x :: x in s ==> x in xs)
  }

  /** The elements at the first `k + 1` positions are those at the first `k` and the next. */
  lemma PrefixElementsStep<T>(xs: seq<T>, k: nat)
    requires k < |xs|
    ensures (set j | 0 <= j < k + 1 :: xs[j]) == (set j | 0 <= j < k :: xs[j]) + {xs[k]}
  {
    var next := set j | 0 <= j < k + 1 :: xs[j];
    var done := set j | 0 <= j < k :: xs[j];
    forall x | x in next ensures x in done + {xs[k]} {
      var j :| 0 <= j < k + 1 && xs[j] == x;
      if j < k {
        assert xs[j] in done;
      }
    }
    forall x | x in done + {xs[k]} ensures x in next {
      if x != xs[k] {
        var j :| 0 <= j < k && xs[j] == x;
        assert xs[j] in next;
      }
    }
  }

  /** The elements at all positions of an enumeration are the enumerated set. */
  lemma PrefixElementsAll<T>(xs: seq<T>, s: set<T>)
    requires Enumerates(xs, s)
    ensures (set j | 0 <= j < |xs| :: xs[j]) == s
  {
    var all := set j | 0 <= j < |xs| :: xs[j];
    forall x | x in s ensures x in all {
      var j :| 0 <= j < |xs| && xs[j] == x;
      assert xs[j] in all;
    }
  }

  lemma {:induction false} EnumerationSize<T>(xs: seq<T>, s: set<T>)
    requires Enumerates(xs, s)
    ensures |xs| == |s|
  {
    if xs != [] {
      var last := xs[|xs| - 1];
      var init := xs[..|xs| - 1];
      assert xs == init + [last];
      assert Enumerates(init, s - {last}) by {
        forall x | x in init ensures x in s - {last} {
          var i :| 0 <= i < |init| && init[i] == x;
          assert xs[i] == x && xs[|xs| - 1] == last;
        }
      }
      EnumerationSize(init, s - {last});
    }
  }

  /** The distinct elements of `xs` in order of first occurrence. */
  function Distinct<T(==)>(xs: seq<T>): (r: seq<T>)
    ensures Enumerates(r, set x | x in xs)
  {
    if xs == [] then []
    else
      var d := Distinct(xs[..|xs| - 1]);
      var last := xs[|xs| - 1];
      assert xs == xs[..|xs| - 1] + [last];
      if last in d then d else d + [last]
  }

  /** Lists the elements of a set in an order the caller cannot predict, as iterating
      a Python set does. */
  method Enumerate<T(==)>(s: set<T>) returns (xs: seq<T>)
    ensures Enumerates(xs, s)
  {
    xs := [];
    var rest := s;
    while rest != {}
      invariant forall x :: x in xs ==> x in s - rest
      invariant forall x :: x in s - rest ==> x in xs
      invariant rest <= s
      invariant NoDuplicates(xs)
      decreases rest
    {
      var x :| x in rest;
      assert x !in xs;
      forall i | 0 <= i < |xs| ensures xs[i] != x {
        assert xs[i] in xs;
      }
      xs := xs + [x];
      rest := rest - {x};
    }
  }

  /** Taking one occurrence of `x` out of two lists with the same elements leaves two lists
      with the same elements. */
  lemma RemoveOne<T>(init: seq<T>, x: T, us: seq<T>, j: nat)
    requires j < |us| && us[j] == x && multiset(init + [x]) == multiset(us)
    ensures multiset(init) == multiset(us[..j] + us[j + 1..])
  {
    assert us == us[..j] + [x] + us[j + 1..];
    assert multiset(us) == multiset(us[..j]) + multiset{x} + multiset(us[j + 1..]);
    assert multiset(init + [x]) == multiset(init) + multiset{x};
    var rest := us[..j] + us[j + 1..];
    assert multiset(rest) == multiset(us[..j]) + multiset(us[j + 1..]);
    assert forall o :: multiset(init)[o] == multiset(rest)[o] by {
      forall o ensures multiset(init)[o] == multiset(rest)[o] {
        assert multiset(init + [x])[o] == multiset(init)[o] + multiset{x}[o];
        assert multiset(us)[o] == multiset(rest)[o] + multiset{x}[o];
      }
    }
  }

  /** `[f(x) for x in s]`. */
  function MapSeq<A, B>(f: A -> B, s: seq<A>): (r: seq<B>)
    ensures |r| == |s| && forall k :: 0 <= k < |s| ==> r[k] == f(s[k])
  {
    seq(|s|, k requires 0 <= k < |s| => f(s[k]))
  }

  /** An occurrence of `x` in a list with the same elements as `init + [x]`, and what is
      left around it. */
  lemma LocateAndRemove<T>(init: seq<T>, x: T, us: seq<T>) returns (j: nat)
    requires multiset(init + [x]) == multiset(us)
    ensures j < |us| && us[j] == x
    ensures multiset(init) == multiset(us[..j] + us[j + 1..])
  {
    assert x in multiset(init + [x]);
    j :| 0 <= j < |us| && us[j] == x;
    RemoveOne(init, x, us, j);
  }

  /** Mapping two lists with the same elements gives two lists with the same elements. */
  lemma {:induction false} MapPermutation<A, B>(f: A -> B, ns: seq<A>, ms: seq<A>)
    requires multiset(ns) == multiset(ms)
    ensures multiset(MapSeq(f, ns)) == multiset(MapSeq(f, ms))
    decreases |ns|
  {
    if ns == [] {
      assert |ms| == |multiset(ms)| == 0;
    } else {
      var x := ns[|ns| - 1];
      var init := ns[..|ns| - 1];
      assert ns == init + [x];
      var j := LocateAndRemove(init, x, ms);
      var a, b := ms[..j], ms[j + 1..];
      MapPermutation(f, init, a + b);
      assert ms == a + [x] + b;
      MapSplit(f, a, x, b);
      MapAppend(f, init, [x]);
      assert MapSeq(f, [x]) == [f(x)];
    }
  }

  lemma MapSplit<A, B>(f: A -> B, a: seq<A>, x: A, b: seq<A>)
    ensures multiset(MapSeq(f, a + [x] + b)) == multiset(MapSeq(f, a + b)) + multiset{f(x)}
  {
    MapAppend(f, a + [x], b);
    MapAppend(f, a, [x]);
    MapAppend(f, a, b);
    assert MapSeq(f, [x]) == [f(x)];
  }

  lemma MapAppend<A, B>(f: A -> B, a: seq<A>, b: seq<A>)
    ensures MapSeq(f, a + b) == MapSeq(f, a) + MapSeq(f, b)
  {
    var l, r := MapSeq(f, a + b), MapSeq(f, a) + MapSeq(f, b);
    assert |l| == |r|;
    forall k | 0 <= k < |l| ensures l[k] == r[k] {
      if k < |a| {
        assert (a + b)[k] == a[k];
      } else {
        assert (a + b)[k] == b[k - |a|];
      }
    }
  }
}
