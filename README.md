# Verified model of an in-memory vector store

This project models `Db`, the small in-memory vector store of `src/main.rs`, in Dafny.
The store maps 128-bit identifiers (`Uuid`) to embeddings. `insert` adds a vector or
overwrites the one already held under that identifier (last write wins).
`trouver_les_plus_similaires(query, n)` finds the `n` stored vectors most similar to a
query: it scores every entry with the cosine similarity `calcul_similarite`, sorts the
(identifier, score) pairs by descending score and keeps the first `n`.

Two modules, one per component:

- `Cosine` (`similarity.dfy`) covers `calcul_similarite`. `Dot` is the dot product over
  `zip`, which stops at the shorter vector. `SumSquares` is the sum of squares of one
  vector, and `Norm` is its square root. `Similarity` returns the dot product divided by
  the product of the norms, or 0 when either norm is 0.
- `VectorStore` (`store.dfy`) holds the class `Db`, whose field `inner` is a
  `map<Uuid, seq<real>>`. It has a constructor, `Insert` and `MostSimilar`.
  `MostSimilar` runs in four steps:
  1. `ScoreEntries` scans the map once, picking the keys in an order the map does not
     fix.
  2. The scored pairs are copied into an array.
  3. `SortByScoreDesc` sorts the array in place; it is an insertion sort.
  4. The first `min(n, |inner|)` pairs are returned.

  What a correct answer is gets stated once, as the predicate `IsTopK`. The lemmas are
  about that predicate: every answer agrees on its scores, a large `n` returns the whole
  store, and a three-vector worked example comes out as expected.

Scores are `real`s, and the square root is a parameter `sqrt: real -> real`. Every
property of the ranking holds whatever that function is. The few facts that need
something of it say so in their `requires`.

## Model

| member | source | states |
|---|---|---|
| `Cosine.SumSquares` | src/main.rs:47-48 | The sum of squares of a vector is never negative, so the square root is always taken of a non-negative value |
| `Cosine.Similarity` | src/main.rs:45-55 | Division-by-zero guard: the result is exactly 0 whenever either vector's norm is 0 |
| `Cosine.Dot` | src/main.rs:46 | The `zip` dot product is the sum of `v1[i] * v2[i]` over the indices below the shorter length, stated against an index-sum definition `ProductSum` |
| `Cosine.ProductSumFromFront` | src/main.rs:46 | The index sum can be split off at its first pair as well as at its last, which links `ProductSum` to the element-by-element `zip` |
| `Cosine.Norm` | src/main.rs:47-48 | The norm is the square root of the vector's dot product with itself, and is never negative when the square root is non-negative on non-negative arguments |
| `Cosine.SimilarityHasSignOfDot` | src/main.rs:46-54 | With a square root that is non-negative on non-negative arguments, the similarity is positive exactly when both norms are non-zero and the dot product is positive, and negative exactly when both norms are non-zero and the dot product is negative |
| `Cosine.DotSymmetric` | src/main.rs:46 | The `zip` dot product is the same with its arguments swapped, including when the lengths differ |
| `Cosine.SumSquaresIsSelfDot` | src/main.rs:46-48 | The sum of squares of a vector is its dot product with itself |
| `Cosine.SimilaritySymmetric` | src/main.rs:45-55 | `similarity(a, b) == similarity(b, a)` for any square root |
| `Cosine.SumSquaresOfZeroVector` | src/main.rs:47-48 | A vector of zeros has sum of squares 0 |
| `Cosine.ZeroVectorHasZeroSimilarity` | src/main.rs:50-51 | If the square root maps 0 to 0, a vector of zeros has similarity exactly 0 with any vector, on either side |
| `VectorStore.Db.constructor` | src/main.rs:74-78 | A new store holds no entries |
| `VectorStore.Db.Insert` | src/main.rs:86-88 | After the call, the identifier maps to exactly the new vector. Every other identifier keeps its vector. The key set gains only that identifier, so the size grows by at most one, and by none when the identifier was already present |
| `VectorStore.Entry` | src/main.rs:111 | The pair for a stored identifier carries that identifier and the similarity of its vector and the query, in either argument order; a stored vector of norm 0 scores 0 |
| `VectorStore.Db.MostSimilar` | src/main.rs:107-119 | The result satisfies `IsTopK`: it has exactly min(n, store size) pairs, in non-increasing score order. Each pair names a stored identifier with that entry's similarity to the query, and no identifier appears twice. No stored identifier left out scores above any returned pair. The method has no `modifies` clause, so the store is untouched |
| `VectorStore.Db.ScoreEntries` | src/main.rs:108-112 | The scan yields one pair per stored identifier. Every pair carries its entry's similarity, and every stored entry's pair is present |
| `VectorStore.SortByScoreDesc` | src/main.rs:114-115 | After sorting, the array is in non-increasing score order and holds the same pairs as before (a permutation) |
| `VectorStore.InsertIntoSorted` | src/main.rs:115 | One insertion step turns a sorted prefix of length `i` into a sorted prefix of length `i + 1`, without losing or adding pairs and without touching the elements after position `i`, so the new prefix is a reordering of the old one |
| `VectorStore.PermutationKeepsEntries` | src/main.rs:108-115 | Reordering the scored pairs keeps every pair scored from the store, keeps the identifiers distinct and keeps every stored entry |
| `VectorStore.SortedPrefixIsTopK` | src/main.rs:115-118 | Cutting the fully scored, sorted list after `n` pairs gives a correct top-`n` answer |
| `VectorStore.CutOffScoresNoHigher` | src/main.rs:115-118 | An entry the cut left out sits after the cut in the sorted list, so it scores no higher than any kept pair |
| `VectorStore.LargeQueryReturnsWholeStore` | src/main.rs:107-118 | When `n` is at least the store size, the answer names exactly the stored identifiers |
| `VectorStore.TopKScoresAgree` | src/main.rs:114-118 | Any two correct answers to the same query have the same score at every position, so two answers can differ only among identifiers of equal score, including which of several tied identifiers at the cut are kept |
| `VectorStore.NoHigherScoreAtPosition` | src/main.rs:114-118 | One answer's score at any position cannot exceed another answer's score at that position |
| `VectorStore.ExampleScores` | src/main.rs:45-55 | Against query `[1, 0]`, the vectors `[1, 0]`, `[0, 1]` and `[1, 1]` score 1, 0 and 1/sqrt(2), with 0 < 1/sqrt(2) < 1 |
| `VectorStore.ExampleQuery` | src/main.rs:107-119 | In the store `{1: [1,0], 2: [0,1], 3: [1,1]}`, the top-2 answer for `[1, 0]` is exactly `[(1, 1), (3, 1/sqrt(2))]`; identifier 2 is excluded |
| `VectorStore.TopTwoOfThree` | src/main.rs:114-118 | In any store of three identifiers whose scores against the query are strictly ordered, the top-2 answer is the best identifier with its score followed by the middle one with its score |
| `VectorStore.ExampleSession` | src/main.rs:74-119 | Building that store through `Db` and querying it returns the same answer |

## Left out

- `generer_embedding` (src/main.rs:20-23) is left out: it is thread-local random number
  generation. Callers supply embeddings.
- `main` (src/main.rs:135-157) is left out: it is demonstration code that draws random
  identifiers with `Uuid::new_v4` and prints to the console.
- The `f32` arithmetic is modelled with unbounded `real`s: rounding, overflow, infinities
  and NaN are not modelled. So the NaN fallback of
  `partial_cmp(...).unwrap_or(Equal)` (src/main.rs:115) never arises, because reals are
  totally ordered.
- The square root is the parameter `sqrt` of `Similarity` and of `Db.MostSimilar`, not
  the `f32::sqrt` of the platform. Dafny cannot define a real square root, so no
  property depends on a particular one. Claims that need the real square root are not
  proved: self-similarity equal to 1, and scores within [-1, 1].
- Cosine.Similarity: does not prove the converse of the zero guard (a zero norm only
  for an all-zero vector). That needs nonlinear reasoning about squares that the
  verifier does not carry out reliably.
- Which pair comes first among equal scores is not stated. The source's `sort_by` is a
  stable merge sort; the model sorts with an insertion sort. Only the score order and
  the permutation are promised.
- `HashMap` hashing and iteration order are not modelled. The scan picks the next key
  by a nondeterministic choice, so the proofs hold for every iteration order.
- Vectors of different lengths are handled as the source handles them, not excluded.
  The dot product follows `zip` and stops at the shorter vector, while each norm covers
  its whole vector. The source does not document this case; the model follows `zip`.
- `n` is an unbounded `nat` rather than a `usize`. Identifiers are integers below 2^128
  rather than structured UUID values.
- That a query leaves the store unchanged is expressed by `Db.MostSimilar` having no
  `modifies` clause, not by a postcondition. `ExampleSession` shows it on the example.
