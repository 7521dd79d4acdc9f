/** `CachedSimilarity`: a memo in front of another similarity. A lookup tries the pair
    as given, then the reversed pair, and only on a double miss asks the wrapped similarity,
    storing the answer under the pair as given. */
module CachedSimilarity {
  import opened Common

  function Swap(p: (UserId, UserId)): (UserId, UserId)
  {
    (p.1, p.0)
  }

  class CachedSimilarity {
    var similarities: map<(UserId, UserId), real>
    const similarity: (UserId, UserId) -> real
    /** The pairs the wrapped similarity was asked for, in call order. */
    ghost var calls: seq<(UserId, UserId)>

    /** Every stored value is the wrapped similarity's answer for its key, the keys are the
        pairs the wrapped similarity was asked for, and no unordered pair was asked twice. */
    ghost predicate Valid()
      reads this
    {
      && similarities.Keys == (set p | p in calls)
      && (forall p :: p in similarities ==> similarities[p] == similarity(p.0, p.1))
      && (forall i, j :: 0 <= i < |calls| && 0 <= j < |calls| && i != j ==>
            calls[i] != calls[j] && calls[i] != Swap(calls[j]))
    }

    constructor(similarity: (UserId, UserId) -> real)
      ensures Valid()
      ensures this.similarity == similarity && similarities == map[] && calls == []
    {
      this.similarity := similarity;
      similarities := map[];
      calls := [];
    }

    method GetSimilarity(a: UserId, b: UserId) returns (s: real)
      requires Valid()
      modifies this
      ensures Valid()
      ensures old((a, b) in similarities) ==>
        s == old(similarities[(a, b)]) && similarities == old(similarities) && calls == old(calls)
      ensures old((a, b) !in similarities && (b, a) in similarities) ==>
        s == old(similarities[(b, a)]) && similarities == old(similarities) && calls == old(calls)
      ensures old((a, b) !in similarities && (b, a) !in similarities) ==>
        s == similarity(a, b) && similarities == old(similarities)[(a, b) := s] && calls == old(calls) + [(a, b)]
      ensures s == similarity(a, b) || s == similarity(b, a)
      ensures (a, b) in similarities || (b, a) in similarities
      ensures (a, b) in similarities ==> similarities[(a, b)] == s
      ensures (b, a) in similarities ==> similarities[(b, a)] == s
    {
      if (a, b) in similarities {
        s := similarities[(a, b)];
        assert (b, a) in similarities ==> similarities[(b, a)] == s by {
          if (b, a) in similarities && a != b {
            var i :| 0 <= i < |calls| && calls[i] == (a, b);
            var j :| 0 <= j < |calls| && calls[j] == (b, a);
            assert calls[i] == Swap(calls[j]);
          }
        }
        return;
      }
      if (b, a) in similarities {
        s := similarities[(b, a)];
        return;
      }
      s := similarity(a, b);
      forall i | 0 <= i < |calls| ensures calls[i] != (a, b) && calls[i] != Swap((a, b)) {
        assert calls[i] in calls;
      }
      similarities := similarities[(a, b) := s];
      calls := calls + [(a, b)];
    }
  }

  /** Asking for a pair and then for the reversed pair gives the same value and asks the
      wrapped similarity at most once. */
  method AskBothOrders(cache: CachedSimilarity, a: UserId, b: UserId) returns (first: real, second: real)
    requires cache.Valid()
    modifies cache
    ensures cache.Valid()
    ensures first == second
    ensures |cache.calls| <= |old(cache.calls)| + 1
  {
    first := cache.GetSimilarity(a, b);
    second := cache.GetSimilarity(b, a);
  }
}
