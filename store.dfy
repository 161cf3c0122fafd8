/**
  The in-memory vector store `Db`: a map from 128-bit identifiers to
  embeddings, with insertion (last write wins) and a top-k query that scores
  every stored embedding against the query, sorts by descending score and
  keeps the first `n` pairs.
 */
module VectorStore {
  import opened Cosine

  /** A 128-bit universally unique identifier, generated by the caller. */
  newtype Uuid = x: int | 0 <= x < 0x1_0000_0000_0000_0000_0000_0000_0000_0000

  /** One line of a ranked result: an identifier and its similarity to the query. */
  datatype Scored = Scored(id: Uuid, score: real)

  function Min(a: int, b: int): int
  {
    if a <= b then a else b
  }

  /** Scores never increase from one position to a later one. */
  ghost predicate SortedByScore(s: seq<Scored>)
  {
    forall p, q :: 0 <= p < q < |s| ==> s[p].score >= s[q].score
  }

  /** No identifier occurs at two positions. */
  ghost predicate DistinctIds(s: seq<Scored>)
  {
    forall p, q :: 0 <= p < q < |s| ==> s[p].id != s[q].id
  }

  /**
    The pair the query produces for the stored identifier `id`. Its score is
    the similarity of the stored vector and the query, whichever goes first,
    and a stored vector of norm 0 scores 0.
   */
  function Entry(inner: map<Uuid, seq<real>>, query: seq<real>, sqrt: real -> real, id: Uuid): (r: Scored)
    requires id in inner
    ensures r.id == id && r.score == Similarity(sqrt, inner[id], query)
    ensures Norm(sqrt, inner[id]) == 0.0 ==> r.score == 0.0
  {
    SimilaritySymmetric(sqrt, query, inner[id]);
    Scored(id, Similarity(sqrt, query, inner[id]))
  }

  /** Every pair names a stored identifier and carries that entry's similarity to the query. */
  ghost predicate ScoredFromStore(s: seq<Scored>, inner: map<Uuid, seq<real>>, query: seq<real>, sqrt: real -> real)
  {
    forall p :: 0 <= p < |s| ==> s[p].id in inner && s[p] == Entry(inner, query, sqrt, s[p].id)
  }

  /** Every stored identifier left out of `s` scores no higher than any pair kept in `s`. */
  ghost predicate NothingBetterDropped(s: seq<Scored>, inner: map<Uuid, seq<real>>, query: seq<real>, sqrt: real -> real)
  {
    forall id :: id in inner && (forall p :: 0 <= p < |s| ==> s[p].id != id) ==>
      forall p :: 0 <= p < |s| ==> Similarity(sqrt, query, inner[id]) <= s[p].score
  }

  /** `s` is an answer to the top-`n` query for `query` against `inner`. */
  ghost predicate IsTopK(inner: map<Uuid, seq<real>>, query: seq<real>, sqrt: real -> real, n: nat, s: seq<Scored>)
  {
    && |s| == Min(n, |inner|)
    && SortedByScore(s)
    && ScoredFromStore(s, inner, query, sqrt)
    && DistinctIds(s)
    && NothingBetterDropped(s, inner, query, sqrt)
  }

  class Db {
    var inner: map<Uuid, seq<real>>

    /** A store with no entries. */
    constructor ()
      ensures inner == map[]
      ensures |inner| == 0
    {
      inner := map[];
    }

    /**
      Stores `embedding` under `uuid`, replacing any vector already held for
      that identifier; every other identifier keeps its vector.
     */
    method Insert(uuid: Uuid, embedding: seq<real>)
      modifies this
      ensures uuid in inner && inner[uuid] == embedding
      ensures inner.Keys == old(inner).Keys + {uuid}
      ensures forall id :: id in old(inner) && id != uuid ==> inner[id] == old(inner)[id]
      ensures |old(inner)| <= |inner| <= |old(inner)| + 1
      ensures uuid in old(inner) ==> |inner| == |old(inner)|
    {
      inner := inner[uuid := embedding];
    }

    /**
      The `n` stored vectors most similar to `query`, best first. Every entry
      is scored once, in whatever order the map yields its keys; the scored
      pairs are sorted by descending score and the first `min(n, |inner|)` are
      returned. The store is not modified: the method has no `modifies` clause.
     */
    method MostSimilar(query: seq<real>, n: nat, sqrt: real -> real) returns (r: seq<Scored>)
      ensures IsTopK(inner, query, sqrt, n, r)
    {
      var scored := ScoreEntries(query, sqrt);
      var similarities := new Scored[|scored|](p requires 0 <= p < |scored| => scored[p]);
      assert similarities[..] == scored;
      SortByScoreDesc(similarities);
      PermutationKeepsEntries(scored, similarities[..], inner, query, sqrt);
      r := similarities[..Min(n, similarities.Length)];
      SortedPrefixIsTopK(similarities[..], n, inner, query, sqrt);
    }

    /**
      Scores every stored entry against `query`, one pair per identifier, in
      an order the map does not fix.
     */
    method ScoreEntries(query: seq<real>, sqrt: real -> real) returns (scored: seq<Scored>)
      ensures |scored| == |inner|
      ensures ScoredFromStore(scored, inner, query, sqrt)
      ensures DistinctIds(scored)
      ensures CoversStore(scored, inner, query, sqrt)
    {
      scored := [];
      var remaining := inner.Keys;
      ghost var scanned: set<Uuid> := {};
      while remaining != {}
        invariant remaining <= inner.Keys
        invariant scanned == inner.Keys - remaining
        invariant |scored| == |scanned| && |scored| + |remaining| == |inner|
        invariant forall p :: 0 <= p < |scored| ==> scored[p].id in scanned
        invariant ScoredFromStore(scored, inner, query, sqrt)
        invariant DistinctIds(scored)
        invariant forall id :: id in scanned ==> Entry(inner, query, sqrt, id) in scored
        decreases remaining
      {
        var uuid :| uuid in remaining;
        ScanStep(inner, query, sqrt, scored, scanned, uuid);
        scored := scored + [Entry(inner, query, sqrt, uuid)];
        remaining := remaining - {uuid};
        scanned := scanned + {uuid};
      }
    }
  }

  /**
    Step of ScoreEntries: appending the pair of an identifier not yet scanned
    keeps the scanned pairs scored from the store, distinct and complete.
   */
  lemma ScanStep(inner: map<Uuid, seq<real>>, query: seq<real>, sqrt: real -> real,
                 scored: seq<Scored>, scanned: set<Uuid>, uuid: Uuid)
    requires uuid in inner && uuid !in scanned && scanned <= inner.Keys
    requires forall p :: 0 <= p < |scored| ==> scored[p].id in scanned
    requires ScoredFromStore(scored, inner, query, sqrt) && DistinctIds(scored)
    requires forall id :: id in scanned ==> Entry(inner, query, sqrt, id) in scored
    ensures forall p :: 0 <= p < |scored| + 1 ==> (scored + [Entry(inner, query, sqrt, uuid)])[p].id in scanned + {uuid}
    ensures ScoredFromStore(scored + [Entry(inner, query, sqrt, uuid)], inner, query, sqrt)
    ensures DistinctIds(scored + [Entry(inner, query, sqrt, uuid)])
    ensures forall id :: id in scanned + {uuid} ==> Entry(inner, query, sqrt, id) in scored + [Entry(inner, query, sqrt, uuid)]
  {
    var next := scored + [Entry(inner, query, sqrt, uuid)];
    assert forall p :: 0 <= p < |scored| ==> next[p] == scored[p];
  }

  /** Every stored identifier's pair occurs in `s`. */
  ghost predicate CoversStore(s: seq<Scored>, inner: map<Uuid, seq<real>>, query: seq<real>, sqrt: real -> real)
  {
    forall id :: id in inner ==> Entry(inner, query, sqrt, id) in s
  }

  /**
    Reordering the scored pairs (as the sort does) keeps them scored from the
    store, keeps their identifiers distinct and keeps every stored entry.
   */
  lemma PermutationKeepsEntries(scored: seq<Scored>, sorted: seq<Scored>,
                                inner: map<Uuid, seq<real>>, query: seq<real>, sqrt: real -> real)
    requires multiset(sorted) == multiset(scored)
    requires ScoredFromStore(scored, inner, query, sqrt)
    requires DistinctIds(scored)
    requires CoversStore(scored, inner, query, sqrt)
    ensures ScoredFromStore(sorted, inner, query, sqrt)
    ensures DistinctIds(sorted)
    ensures CoversStore(sorted, inner, query, sqrt)
  {
    DistinctIdsHaveSingleCounts(scored);
    SingleCountsAreDistinct(sorted);
    forall p | 0 <= p < |sorted|
      ensures sorted[p].id in inner && sorted[p] == Entry(inner, query, sqrt, sorted[p].id)
    {
      assert sorted[p] in multiset(scored);
    }
    forall id | id in inner
      ensures Entry(inner, query, sqrt, id) in sorted
    {
      assert Entry(inner, query, sqrt, id) in multiset(sorted);
    }
  }

  /**
    Cutting the fully scored and sorted list after `n` pairs answers the
    top-`n` query: nothing better can have been cut off.
   */
  lemma SortedPrefixIsTopK(sorted: seq<Scored>, n: nat,
                           inner: map<Uuid, seq<real>>, query: seq<real>, sqrt: real -> real)
    requires |sorted| == |inner|
    requires SortedByScore(sorted)
    requires ScoredFromStore(sorted, inner, query, sqrt)
    requires DistinctIds(sorted)
    requires CoversStore(sorted, inner, query, sqrt)
    ensures IsTopK(inner, query, sqrt, n, sorted[..Min(n, |sorted|)])
  {
    var k := Min(n, |sorted|);
    var r := sorted[..k];
    assert forall p :: 0 <= p < k ==> r[p] == sorted[p];
    assert SortedByScore(r) && ScoredFromStore(r, inner, query, sqrt) && DistinctIds(r);
    forall id | id in inner && (forall p :: 0 <= p < |r| ==> r[p].id != id)
      ensures forall p :: 0 <= p < |r| ==> Similarity(sqrt, query, inner[id]) <= r[p].score
    {
      CutOffScoresNoHigher(sorted, k, inner, query, sqrt, id);
    }
  }

  /**
    Step of SortedPrefixIsTopK: an identifier the cut left out sits at or after
    position `k` of the sorted list, so it scores no higher than the kept pairs.
   */
  lemma CutOffScoresNoHigher(sorted: seq<Scored>, k: nat,
                             inner: map<Uuid, seq<real>>, query: seq<real>, sqrt: real -> real, id: Uuid)
    requires k <= |sorted|
    requires SortedByScore(sorted)
    requires CoversStore(sorted, inner, query, sqrt)
    requires id in inner && forall p :: 0 <= p < k ==> sorted[p].id != id
    ensures forall p :: 0 <= p < k ==> Similarity(sqrt, query, inner[id]) <= sorted[p].score
  {
    var e := Entry(inner, query, sqrt, id);
    assert e in sorted;
    var j :| 0 <= j < |sorted| && sorted[j] == e;
    assert k <= j;
  }


  /**
    Sorts `a` in place by descending score. The result is a permutation of the
    input; the relative order of equal scores is not specified.
   */
  method SortByScoreDesc(a: array<Scored>)
    modifies a
    ensures SortedByScore(a[..])
    ensures multiset(a[..]) == multiset(old(a[..]))
  {
    for i := 0 to a.Length
      invariant SortedByScore(a[..i])
      invariant multiset(a[..]) == multiset(old(a[..]))
    {
      InsertIntoSorted(a, i);
    }
    assert a[..a.Length] == a[..];
  }

  /**
    One insertion-sort step: given a sorted prefix `a[..i]`, moves `a[i]` left
    past every smaller score so that `a[..i + 1]` is sorted.
   */
  method InsertIntoSorted(a: array<Scored>, i: nat)
    requires i < a.Length
    requires SortedByScore(a[..i])
    modifies a
    ensures SortedByScore(a[..i + 1])
    ensures multiset(a[..]) == multiset(old(a[..]))
    ensures a[i + 1..] == old(a[i + 1..])
  {
    var j := i;
    while j > 0 && a[j - 1].score < a[j].score
      invariant 0 <= j <= i
      invariant forall p, q :: 0 <= p < q <= i && p != j && q != j ==> a[p].score >= a[q].score
      invariant forall q :: j < q <= i ==> a[j].score > a[q].score
      invariant multiset(a[..]) == multiset(old(a[..]))
      invariant a[i + 1..] == old(a[i + 1..])
    {
      SwapWithPrevious(a, j);
      j := j - 1;
    }
  }

  /** Exchanges `a[j - 1]` and `a[j]`, leaving every other element in place. */
  method SwapWithPrevious(a: array<Scored>, j: nat)
    requires 0 < j < a.Length
    modifies a
    ensures a[j - 1] == old(a[j]) && a[j] == old(a[j - 1])
    ensures forall m :: 0 <= m < a.Length && m != j - 1 && m != j ==> a[m] == old(a[m])
    ensures multiset(a[..]) == multiset(old(a[..]))
  {
    a[j - 1], a[j] := a[j], a[j - 1];
  }

  /** A sequence whose identifiers are distinct holds each pair at most once. */
  lemma {:induction false} DistinctIdsHaveSingleCounts(s: seq<Scored>)
    requires DistinctIds(s)
    ensures forall x :: multiset(s)[x] <= 1
  {
    if |s| > 0 {
      var init, last := s[..|s| - 1], s[|s| - 1];
      assert DistinctIds(init);
      DistinctIdsHaveSingleCounts(init);
      assert s == init + [last];
      assert last !in init;
    }
  }

  /** A sequence that holds each pair at most once has no pair at two positions. */
  lemma SingleCountsAreDistinct(s: seq<Scored>)
    requires forall x :: multiset(s)[x] <= 1
    ensures forall p, q :: 0 <= p < q < |s| ==> s[p] != s[q]
  {
    forall p, q | 0 <= p < q < |s|
      ensures s[p] != s[q]
    {
      assert s == s[..q] + s[q..];
      assert s[p] == s[..q][p];
      assert s[q] == s[q..][0];
      assert multiset(s)[s[q]] == multiset(s[..q])[s[q]] + multiset(s[q..])[s[q]];
    }
  }

  /** The identifiers named in `s`. */
  function Ids(s: seq<Scored>): set<Uuid>
  {
    set p | 0 <= p < |s| :: s[p].id
  }

  /** `s` names at most `|s|` identifiers, and exactly `|s|` when they are distinct. */
  lemma {:induction false} IdsCardinality(s: seq<Scored>)
    ensures |Ids(s)| <= |s|
    ensures DistinctIds(s) ==> |Ids(s)| == |s|
  {
    if |s| > 0 {
      var init, last := s[..|s| - 1], s[|s| - 1];
      IdsCardinality(init);
      assert Ids(s) == Ids(init) + {last.id} by {
        forall x | x in Ids(s) ensures x in Ids(init) + {last.id} {
          var p :| 0 <= p < |s| && s[p].id == x;
          if p < |s| - 1 { assert init[p] == s[p]; }
        }
        forall x | x in Ids(init) ensures x in Ids(s) {
          var p :| 0 <= p < |init| && init[p].id == x;
          assert s[p] == init[p];
        }
      }
      if DistinctIds(s) {
        assert DistinctIds(init);
        assert last.id !in Ids(init);
      }
    }
  }

  /**
    When `n` is at least the size of the store, the query returns every stored
    identifier.
   */
  lemma LargeQueryReturnsWholeStore(inner: map<Uuid, seq<real>>, query: seq<real>, sqrt: real -> real,
                                    n: nat, s: seq<Scored>)
    requires IsTopK(inner, query, sqrt, n, s)
    requires n >= |inner|
    ensures Ids(s) == inner.Keys
  {
    IdsCardinality(s);
    assert Ids(s) <= inner.Keys;
    SubsetCardinality(Ids(s), inner.Keys);
  }

  /** A subset is no larger than its superset, and equal to it when as large. */
  lemma SubsetCardinality<T>(a: set<T>, b: set<T>)
    requires a <= b
    ensures |a| <= |b|
    ensures |a| == |b| ==> a == b
  {
    assert b == a + (b - a);
    assert a * (b - a) == {};
    if |a| == |b| {
      assert |b - a| == 0;
    }
  }

  /**
    Two answers to the same top-`n` query carry the same score at every
    position: they can differ only among identifiers of equal score.
   */
  lemma TopKScoresAgree(inner: map<Uuid, seq<real>>, query: seq<real>, sqrt: real -> real,
                        n: nat, s1: seq<Scored>, s2: seq<Scored>)
    requires IsTopK(inner, query, sqrt, n, s1)
    requires IsTopK(inner, query, sqrt, n, s2)
    ensures forall i :: 0 <= i < |s1| ==> s1[i].score == s2[i].score
  {
    forall i | 0 <= i < |s1|
      ensures s1[i].score == s2[i].score
    {
      if s1[i].score > s2[i].score {
        NoHigherScoreAtPosition(inner, query, sqrt, n, s1, s2, i);
      } else if s2[i].score > s1[i].score {
        NoHigherScoreAtPosition(inner, query, sqrt, n, s2, s1, i);
      }
    }
  }

  /** One half of TopKScoresAgree: `s1` cannot beat `s2` at position `i`. */
  lemma NoHigherScoreAtPosition(inner: map<Uuid, seq<real>>, query: seq<real>, sqrt: real -> real,
                                n: nat, s1: seq<Scored>, s2: seq<Scored>, i: nat)
    requires IsTopK(inner, query, sqrt, n, s1)
    requires IsTopK(inner, query, sqrt, n, s2)
    requires i < |s1|
    ensures s1[i].score <= s2[i].score
  {
    if s1[i].score > s2[i].score {
      // The i + 1 leaders of s1 all beat s2[i], so all of them sit in s2
      // before position i: too many for i places.
      var leaders := Ids(s1[..i + 1]);
      var ahead := Ids(s2[..i]);
      LeadersAreAhead(inner, query, sqrt, s1, s2, i);
      IdsCardinality(s1[..i + 1]);
      IdsCardinality(s2[..i]);
      assert DistinctIds(s1[..i + 1]);
      SubsetCardinality(leaders, ahead);
    }
  }

  /**
    Step of NoHigherScoreAtPosition: when `s1[i]` beats `s2[i]`, every
    identifier `s1` holds up to position `i` is held by `s2` before position `i`.
   */
  lemma LeadersAreAhead(inner: map<Uuid, seq<real>>, query: seq<real>, sqrt: real -> real,
                        s1: seq<Scored>, s2: seq<Scored>, i: nat)
    requires SortedByScore(s1) && ScoredFromStore(s1, inner, query, sqrt)
    requires SortedByScore(s2) && ScoredFromStore(s2, inner, query, sqrt)
    requires NothingBetterDropped(s2, inner, query, sqrt)
    requires i < |s1| && i < |s2|
    requires s1[i].score > s2[i].score
    ensures Ids(s1[..i + 1]) <= Ids(s2[..i])
  {
    forall x | x in Ids(s1[..i + 1])
      ensures x in Ids(s2[..i])
    {
      var p :| 0 <= p < i + 1 && s1[..i + 1][p].id == x;
      assert s1[p].id == x;
      LeaderIsAhead(inner, query, sqrt, s1, s2, i, p);
    }
  }

  /**
    Step of LeadersAreAhead: a pair of `s1` at or before position `i`,
    when `s1[i]` beats `s2[i]`, names an identifier that `s2` holds before
    position `i`.
   */
  lemma LeaderIsAhead(inner: map<Uuid, seq<real>>, query: seq<real>, sqrt: real -> real,
                      s1: seq<Scored>, s2: seq<Scored>, i: nat, p: nat)
    requires SortedByScore(s1) && ScoredFromStore(s1, inner, query, sqrt)
    requires SortedByScore(s2) && ScoredFromStore(s2, inner, query, sqrt)
    requires NothingBetterDropped(s2, inner, query, sqrt)
    requires p <= i < |s1| && i < |s2|
    requires s1[i].score > s2[i].score
    ensures s1[p].id in Ids(s2[..i])
  {
    var x := s1[p].id;
    assert s1[p].score > s2[i].score by {
      assert p < i ==> s1[p].score >= s1[i].score;
    }
    var q := KeptAbove(inner, query, sqrt, s2, x, i);
    assert q < i;
    assert s2[..i][q].id == x;
  }

  /**
    A stored identifier whose score beats the score at position `i` of `s2`
    is held by `s2`.
   */
  lemma KeptAbove(inner: map<Uuid, seq<real>>, query: seq<real>, sqrt: real -> real,
                  s2: seq<Scored>, x: Uuid, i: nat) returns (q: nat)
    requires ScoredFromStore(s2, inner, query, sqrt)
    requires NothingBetterDropped(s2, inner, query, sqrt)
    requires i < |s2| && x in inner && Similarity(sqrt, query, inner[x]) > s2[i].score
    ensures q < |s2| && s2[q].id == x && s2[q].score > s2[i].score
  {
    q :| q < |s2| && s2[q].id == x;
  }



  /** A small example store: three two-dimensional vectors. */
  function ExampleStore(): map<Uuid, seq<real>>
  {
    map[1 := [1.0, 0.0], 2 := [0.0, 1.0], 3 := [1.0, 1.0]]
  }

  /**
    Querying the example store with `[1, 0]` for the best two returns
    identifier 1 with score 1 and then identifier 3 with score 1/sqrt(2);
    identifier 2, orthogonal to the query, is left out. Only `sqrt(1) == 1`
    and `sqrt(2) > 1` are needed of the square root.
   */
  lemma ExampleQuery(sqrt: real -> real, r: seq<Scored>)
    requires sqrt(1.0) == 1.0 && sqrt(2.0) > 1.0
    requires IsTopK(ExampleStore(), [1.0, 0.0], sqrt, 2, r)
    ensures r == [Scored(1, 1.0), Scored(3, 1.0 / sqrt(2.0))]
  {
    ExampleScores(sqrt);
    TopTwoOfThree(ExampleStore(), [1.0, 0.0], sqrt, r, 1, 2, 3);
  }

  /**
    In a store of three identifiers whose scores are strictly ordered, the
    top-2 answer is the best identifier followed by the second best.
   */
  lemma TopTwoOfThree(inner: map<Uuid, seq<real>>, query: seq<real>, sqrt: real -> real, r: seq<Scored>,
                      best: Uuid, worst: Uuid, middle: Uuid)
    requires inner.Keys == {best, worst, middle}
    requires Similarity(sqrt, query, inner[best]) > Similarity(sqrt, query, inner[middle])
    requires Similarity(sqrt, query, inner[middle]) > Similarity(sqrt, query, inner[worst])
    requires IsTopK(inner, query, sqrt, 2, r)
    ensures r == [Scored(best, Similarity(sqrt, query, inner[best])), Scored(middle, Similarity(sqrt, query, inner[middle]))]
  {
    ThreeKeys(inner, best, worst, middle);
    KeptOrNoHigher(inner, query, sqrt, r, best);
    KeptOrNoHigher(inner, query, sqrt, r, middle);
    var a, b := r[0], r[1];
    assert a.id != b.id && a.score >= b.score;
    RankTwoOfThree(inner.Keys, best, worst, middle, a, b, sqrt, query, inner);
    assert r == [a, b];
  }

  /**
    Step of TopTwoOfThree, on the two kept pairs alone: with distinct
    identifiers in descending score, each either kept or beaten, they are the
    best and the middle identifier in that order.
   */
  lemma RankTwoOfThree(keys: set<Uuid>, best: Uuid, worst: Uuid, middle: Uuid, a: Scored, b: Scored,
                       sqrt: real -> real, query: seq<real>, inner: map<Uuid, seq<real>>)
    requires keys == {best, worst, middle} && keys == inner.Keys
    requires a.id in keys && b.id in keys && a.id != b.id && a.score >= b.score
    requires a.score == Similarity(sqrt, query, inner[a.id]) && b.score == Similarity(sqrt, query, inner[b.id])
    requires Similarity(sqrt, query, inner[best]) > Similarity(sqrt, query, inner[middle])
    requires Similarity(sqrt, query, inner[middle]) > Similarity(sqrt, query, inner[worst])
    requires a.id == best || b.id == best || Similarity(sqrt, query, inner[best]) <= b.score
    requires a.id == middle || b.id == middle || Similarity(sqrt, query, inner[middle]) <= b.score
    ensures a.id == best && b.id == middle
  {
  }

  /** A map whose keys are three distinct identifiers has three entries. */
  lemma ThreeKeys(inner: map<Uuid, seq<real>>, a: Uuid, b: Uuid, c: Uuid)
    requires inner.Keys == {a, b, c} && a != b && b != c && a != c
    ensures |inner| == 3
  {
    assert inner.Keys == {a} + {b} + {c};
  }

  /**
    Step of TopTwoOfThree: a stored identifier is either kept in a two-pair
    answer or scores no higher than its second pair.
   */
  lemma KeptOrNoHigher(inner: map<Uuid, seq<real>>, query: seq<real>, sqrt: real -> real, r: seq<Scored>, id: Uuid)
    requires |r| == 2 && id in inner
    requires ScoredFromStore(r, inner, query, sqrt) && NothingBetterDropped(r, inner, query, sqrt)
    ensures r[0].id == id || r[1].id == id || Similarity(sqrt, query, inner[id]) <= r[1].score
    ensures r[0].id in inner.Keys && r[1].id in inner.Keys
    ensures r[0].score == Similarity(sqrt, query, inner[r[0].id])
    ensures r[1].score == Similarity(sqrt, query, inner[r[1].id])
  {
    assert r[0].id != id && r[1].id != id ==> forall p :: 0 <= p < |r| ==> r[p].id != id;
  }

  /** The similarities of the three example vectors to the query `[1, 0]`. */
  lemma ExampleScores(sqrt: real -> real)
    requires sqrt(1.0) == 1.0 && sqrt(2.0) > 1.0
    ensures Similarity(sqrt, [1.0, 0.0], ExampleStore()[1]) == 1.0
    ensures Similarity(sqrt, [1.0, 0.0], ExampleStore()[2]) == 0.0
    ensures Similarity(sqrt, [1.0, 0.0], ExampleStore()[3]) == 1.0 / sqrt(2.0)
    ensures 0.0 < 1.0 / sqrt(2.0) < 1.0
  {
    var inner, query := ExampleStore(), [1.0, 0.0];
    assert SumSquares(query) == 1.0 && SumSquares(inner[2]) == 1.0 && SumSquares(inner[3]) == 2.0;
    assert Dot(query, inner[1]) == 1.0 && Dot(query, inner[2]) == 0.0 && Dot(query, inner[3]) == 1.0;
    var root2 := sqrt(2.0);
    assert 1.0 / root2 < 1.0 / 1.0;
  }

  /**
    The example run end to end through the store: three insertions into a
    new store, then the top-2 query, which leaves the store as it was.
   */
  method ExampleSession(sqrt: real -> real) returns (r: seq<Scored>)
    requires sqrt(1.0) == 1.0 && sqrt(2.0) > 1.0
    ensures r == [Scored(1, 1.0), Scored(3, 1.0 / sqrt(2.0))]
  {
    var db := new Db();
    db.Insert(1, [1.0, 0.0]);
    db.Insert(2, [0.0, 1.0]);
    db.Insert(3, [1.0, 1.0]);
    assert db.inner == ExampleStore();
    r := db.MostSimilar([1.0, 0.0], 2, sqrt);
    assert db.inner == ExampleStore();
    ExampleQuery(sqrt, r);
  }
}
