/**
 * The retrieval step of the chat route, `findSimilarDocuments`: score every
 * stored record against the query vector, sort the scored records by
 * descending similarity with a stable sort (JavaScript's `Array.prototype.sort`
 * is stable), and keep `slice(0, topK)` of the result.
 */
module Ranking {
  import opened Index
  import opened VectorMath

  /** `{ ...item, similarity }`: a stored record with its score attached. */
  datatype SimilarityResult = SimilarityResult(doc: EmbeddingData, similarity: real)

  /** Every stored vector can be scored against the query (see `Comparable`). */
  predicate AllComparable(q: Vector, data: seq<EmbeddingData>, sqrt: real -> real)
  {
    forall i :: 0 <= i < |data| ==> Comparable(q, data[i].embedding, sqrt)
  }

  /** `embeddingsData.map(item => ({ ...item, similarity: cosineSimilarity(query, item.embedding) }))` */
  function ScoreAll(q: Vector, data: seq<EmbeddingData>, sqrt: real -> real): (r: seq<SimilarityResult>)
    requires AllComparable(q, data, sqrt)
    ensures |r| == |data|
    ensures forall i :: 0 <= i < |r| ==> r[i].doc == data[i]
    ensures forall i :: 0 <= i < |r| ==> r[i].similarity == CosineSimilarity(q, data[i].embedding, sqrt)
  {
    seq(|data|, i requires 0 <= i < |data| => SimilarityResult(data[i], CosineSimilarity(q, data[i].embedding, sqrt)))
  }

  /** Non-increasing by similarity, which is what the comparator `b.similarity - a.similarity` asks for. */
  predicate SortedDesc(s: seq<SimilarityResult>)
  {
    forall i, j :: 0 <= i < j < |s| ==> s[i].similarity >= s[j].similarity
  }

  /**
   * Insert `x` in front of the first element that does not score higher than
   * it; since `x` came earlier in the input, ties stay in input order.
   */
  function Insert(x: SimilarityResult, s: seq<SimilarityResult>): (r: seq<SimilarityResult>)
    ensures |r| == |s| + 1
    ensures multiset(r) == multiset(s) + multiset{x}
  {
    if |s| == 0 then [x]
    else if x.similarity >= s[0].similarity then [x] + s
    else
      assert s == [s[0]] + s[1..];
      [s[0]] + Insert(x, s[1..])
  }

  /** The stable descending sort of line 47, as an insertion sort. */
  function SortBySimilarity(s: seq<SimilarityResult>): (r: seq<SimilarityResult>)
    ensures |r| == |s|
    ensures multiset(r) == multiset(s)
  {
    if |s| == 0 then []
    else
      assert s == [s[0]] + s[1..];
      Insert(s[0], SortBySimilarity(s[1..]))
  }

  /** The elements of `s` that score exactly `v`, in the order of `s`. */
  function WithScore(s: seq<SimilarityResult>, v: real): seq<SimilarityResult>
  {
    if |s| == 0 then []
    else (if s[0].similarity == v then [s[0]] else []) + WithScore(s[1..], v)
  }

  /** The end index that JavaScript's `slice(0, k)` uses on an array of length `n`. */
  function SliceEnd(k: int, n: nat): (e: nat)
    ensures e <= n
    ensures k >= 0 ==> e == if k < n then k else n
    ensures k < 0 ==> e == if n + k < 0 then 0 else n + k
  {
    if k < 0 then (if n + k < 0 then 0 else n + k)
    else if k < n then k
    else n
  }

  function FindSimilarDocuments(q: Vector, data: seq<EmbeddingData>, topK: int, sqrt: real -> real): (r: seq<SimilarityResult>)
    requires AllComparable(q, data, sqrt)
    ensures |r| <= |data|
    ensures topK >= 0 ==> |r| == if topK < |data| then topK else |data|
    ensures topK < 0 ==> |r| == if |data| + topK < 0 then 0 else |data| + topK
    ensures SortedDesc(r)
    ensures forall i :: 0 <= i < |r| ==>
      exists j :: 0 <= j < |data| && r[i] == SimilarityResult(data[j], CosineSimilarity(q, data[j].embedding, sqrt))
  {
    var scored := ScoreAll(q, data, sqrt);
    var sorted := SortBySimilarity(scored);
    SortSorted(scored);
    var r := sorted[..SliceEnd(topK, |sorted|)];
    PrefixFromData(q, data, sqrt, r);
    r
  }

  /** Every element of a prefix of the sorted scores is some input record with its score. */
  lemma PrefixFromData(q: Vector, data: seq<EmbeddingData>, sqrt: real -> real, r: seq<SimilarityResult>)
    requires AllComparable(q, data, sqrt)
    requires r <= SortBySimilarity(ScoreAll(q, data, sqrt))
    ensures forall i :: 0 <= i < |r| ==>
      exists j :: 0 <= j < |data| && r[i] == SimilarityResult(data[j], CosineSimilarity(q, data[j].embedding, sqrt))
  {
    var scored := ScoreAll(q, data, sqrt);
    var sorted := SortBySimilarity(scored);
    forall i | 0 <= i < |r|
      ensures exists j :: 0 <= j < |data| && r[i] == SimilarityResult(data[j], CosineSimilarity(q, data[j].embedding, sqrt))
    {
      assert r[i] == sorted[i];
      assert r[i] in multiset(sorted);
      assert r[i] in multiset(scored);
      var j :| 0 <= j < |scored| && scored[j] == r[i];
      assert r[i] == SimilarityResult(data[j], CosineSimilarity(q, data[j].embedding, sqrt));
    }
  }

  // ---------------------------------------------------------------------
  // The sort orders by similarity

  lemma InsertMembers(x: SimilarityResult, s: seq<SimilarityResult>, k: int)
    requires 0 <= k < |Insert(x, s)|
    ensures Insert(x, s)[k] == x || Insert(x, s)[k] in s
  {
    var r := Insert(x, s);
    assert r[k] in multiset(r);
  }

  lemma {:induction false} InsertSorted(x: SimilarityResult, s: seq<SimilarityResult>)
    requires SortedDesc(s)
    ensures SortedDesc(Insert(x, s))
    decreases |s|
  {
    if |s| > 0 && x.similarity < s[0].similarity {
      var tail := Insert(x, s[1..]);
      InsertSorted(x, s[1..]);
      forall k | 0 <= k < |tail| ensures tail[k].similarity <= s[0].similarity {
        InsertMembers(x, s[1..], k);
      }
      assert Insert(x, s) == [s[0]] + tail;
    }
  }

  lemma {:induction false} SortSorted(s: seq<SimilarityResult>)
    ensures SortedDesc(SortBySimilarity(s))
    decreases |s|
  {
    if |s| > 0 {
      SortSorted(s[1..]);
      InsertSorted(s[0], SortBySimilarity(s[1..]));
    }
  }

  // ---------------------------------------------------------------------
  // The sort is stable: records with one score keep their input order

  lemma {:induction false} WithScoreAppend(a: seq<SimilarityResult>, b: seq<SimilarityResult>, v: real)
    ensures WithScore(a + b, v) == WithScore(a, v) + WithScore(b, v)
    decreases |a|
  {
    if |a| > 0 {
      assert (a + b)[0] == a[0];
      assert (a + b)[1..] == a[1..] + b;
      WithScoreAppend(a[1..], b, v);
      var h := if a[0].similarity == v then [a[0]] else [];
      assert WithScore(a + b, v) == h + WithScore(a[1..] + b, v);
    } else {
      assert a + b == b;
    }
  }

  lemma {:induction false} InsertWithScore(x: SimilarityResult, s: seq<SimilarityResult>, v: real)
    ensures WithScore(Insert(x, s), v) == WithScore([x], v) + WithScore(s, v)
    decreases |s|
  {
    if |s| == 0 {
    } else if x.similarity >= s[0].similarity {
      WithScoreAppend([x], s, v);
    } else {
      InsertWithScore(x, s[1..], v);
      WithScoreAppend([s[0]], Insert(x, s[1..]), v);
      WithScoreAppend([s[0]], s[1..], v);
      assert s == [s[0]] + s[1..];
    }
  }

  /** For every score, the records with that score come out in input order. */
  lemma {:induction false} SortStable(s: seq<SimilarityResult>, v: real)
    ensures WithScore(SortBySimilarity(s), v) == WithScore(s, v)
    decreases |s|
  {
    if |s| > 0 {
      SortStable(s[1..], v);
      InsertWithScore(s[0], SortBySimilarity(s[1..]), v);
      WithScoreAppend([s[0]], s[1..], v);
      assert s == [s[0]] + s[1..];
    }
  }

  lemma WithScoreHead(s: seq<SimilarityResult>)
    requires |s| > 0
    ensures WithScore(s, s[0].similarity) == [s[0]] + WithScore(s[1..], s[0].similarity)
  {
  }

  lemma {:induction false} WithScoreMembers(s: seq<SimilarityResult>, v: real, x: SimilarityResult)
    ensures x in WithScore(s, v) <==> x in s && x.similarity == v
    decreases |s|
  {
    if |s| > 0 {
      WithScoreMembers(s[1..], v, x);
      assert s == [s[0]] + s[1..];
    }
  }

  lemma WithScoreSkip(s: seq<SimilarityResult>, w: real)
    requires |s| > 0 && s[0].similarity != w
    ensures WithScore(s[1..], w) == WithScore(s, w)
  {
  }

  /**
   * Two sequences sorted by descending similarity that agree on the
   * subsequence of every score are equal.
   */
  lemma {:induction false} SortedUnique(u: seq<SimilarityResult>, t: seq<SimilarityResult>)
    requires SortedDesc(u) && SortedDesc(t)
    requires forall v :: WithScore(u, v) == WithScore(t, v)
    ensures u == t
    decreases |u|
  {
    if |u| == 0 {
      if |t| > 0 {
        WithScoreHead(t);
        assert false;
      }
    } else if |t| == 0 {
      WithScoreHead(u);
      assert false;
    } else {
      var a, b := u[0], t[0];
      WithScoreHead(u);
      WithScoreHead(t);
      WithScoreMembers(t, a.similarity, a);
      WithScoreMembers(u, b.similarity, b);
      assert a in t && b in u;
      assert b.similarity >= a.similarity;
      assert a.similarity >= b.similarity;
      var v := a.similarity;
      var left, right := [a] + WithScore(u[1..], v), [b] + WithScore(t[1..], v);
      assert left == right;
      assert left[0] == a && right[0] == b;
      assert left[1..] == WithScore(u[1..], v) && right[1..] == WithScore(t[1..], v);
      forall w ensures WithScore(u[1..], w) == WithScore(t[1..], w) {
        if w != v {
          WithScoreSkip(u, w);
          WithScoreSkip(t, w);
        }
      }
      SortedUnique(u[1..], t[1..]);
      assert u == [a] + u[1..] && t == [b] + t[1..];
    }
  }

  /**
   * The sort is THE stable descending sort: any sequence sorted by descending
   * similarity that keeps every score's records in input order equals it.
   */
  lemma SortIsStableSort(s: seq<SimilarityResult>, t: seq<SimilarityResult>)
    requires SortedDesc(t)
    requires forall v :: WithScore(t, v) == WithScore(s, v)
    ensures t == SortBySimilarity(s)
  {
    SortSorted(s);
    forall v ensures WithScore(t, v) == WithScore(SortBySimilarity(s), v) {
      SortStable(s, v);
    }
    SortedUnique(t, SortBySimilarity(s));
  }

  // ---------------------------------------------------------------------
  // What the top-K selection promises

  /**
   * The result is the first |r| elements of any stable descending sort of the
   * scored records.
   */
  lemma FindSimilarIsStableTopK(q: Vector, data: seq<EmbeddingData>, topK: int, sqrt: real -> real, t: seq<SimilarityResult>)
    requires AllComparable(q, data, sqrt)
    requires SortedDesc(t)
    requires forall v :: WithScore(t, v) == WithScore(ScoreAll(q, data, sqrt), v)
    ensures |t| == |data|
    ensures FindSimilarDocuments(q, data, topK, sqrt) == t[..|FindSimilarDocuments(q, data, topK, sqrt)|]
  {
    SortIsStableSort(ScoreAll(q, data, sqrt), t);
  }

  lemma {:induction false} WithScorePrefix(s: seq<SimilarityResult>, e: nat, v: real)
    requires e <= |s|
    ensures WithScore(s[..e], v) <= WithScore(s, v)
  {
    assert s == s[..e] + s[e..];
    WithScoreAppend(s[..e], s[e..], v);
  }

  /** Among the returned records, those with equal scores appear in their input order. */
  lemma FindSimilarStable(q: Vector, data: seq<EmbeddingData>, topK: int, sqrt: real -> real, v: real)
    requires AllComparable(q, data, sqrt)
    ensures WithScore(FindSimilarDocuments(q, data, topK, sqrt), v) <= WithScore(ScoreAll(q, data, sqrt), v)
  {
    var scored := ScoreAll(q, data, sqrt);
    var sorted := SortBySimilarity(scored);
    WithScorePrefix(sorted, SliceEnd(topK, |sorted|), v);
    SortStable(scored, v);
  }

  /** A prefix of a sorted permutation is drawn from the base, and beats everything it leaves out. */
  lemma SortedPrefixDominates(s: seq<SimilarityResult>, r: seq<SimilarityResult>, base: seq<SimilarityResult>)
    requires SortedDesc(s) && r <= s
    requires multiset(s) == multiset(base)
    ensures multiset(r) <= multiset(base)
    ensures |r| > 0 ==> forall x :: x in multiset(base) - multiset(r) ==> x.similarity <= r[|r| - 1].similarity
  {
    var e := |r|;
    var rest := s[e..];
    assert s == r + rest;
    assert multiset(s) == multiset(r) + multiset(rest);
    forall x | x in multiset(base) - multiset(r) && e > 0 ensures x.similarity <= r[e - 1].similarity {
      assert x in rest;
      var k :| 0 <= k < |rest| && rest[k] == x;
      assert s[e + k] == x && s[e - 1] == r[e - 1];
    }
  }

  /**
   * Nothing better was left out: every scored record that was not returned
   * scores at most as high as the last one returned.
   */
  lemma FindSimilarLeftOut(q: Vector, data: seq<EmbeddingData>, topK: int, sqrt: real -> real)
    requires AllComparable(q, data, sqrt)
    ensures multiset(FindSimilarDocuments(q, data, topK, sqrt)) <= multiset(ScoreAll(q, data, sqrt))
    ensures var r := FindSimilarDocuments(q, data, topK, sqrt);
      |r| > 0 ==> forall x :: x in multiset(ScoreAll(q, data, sqrt)) - multiset(r) ==> x.similarity <= r[|r| - 1].similarity
  {
    var scored := ScoreAll(q, data, sqrt);
    var sorted := SortBySimilarity(scored);
    SortSorted(scored);
    SortedPrefixDominates(sorted, FindSimilarDocuments(q, data, topK, sqrt), scored);
  }
}
