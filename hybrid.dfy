/** The hybrid retriever: a dense (Chroma) and a keyword (BM25) retriever run on
    the same question, their two ranked lists are put side by side, dense first,
    and fused with Reciprocal Rank Fusion at the default k. */
module Hybrid {
  import opened Wrappers
  import opened Loader
  import opened StableSort
  import opened RankFusion

  /** What `RunnableParallel` hands on: one ranked list per named retriever. */
  datatype ParallelOutput = ParallelOutput(chromaDocuments: seq<Document>, bm25Documents: seq<Document>)

  /** `lambda x: [x["chroma_documents"], x["bm25_documents"]]`. */
  function ToLists(x: ParallelOutput): (r: seq<seq<Document>>)
    ensures |r| == 2 && r[0] == x.chromaDocuments && r[1] == x.bm25Documents
  {
    [x.chromaDocuments, x.bm25Documents]
  }

  /** Some document of `docs` has content `c`. */
  predicate InList(docs: seq<Document>, c: string) {
    exists j :: 0 <= j < |docs| && docs[j].pageContent == c
  }

  /** The fused score of `c` in the hybrid ranking. */
  function HybridScore(x: ParallelOutput, c: string): real {
    Score(ToLists(x), DefaultK, c)
  }

  /** `hybrid_retriever.invoke(question)` once both retrievers have answered. With
      k = 60 no `rank + k` is zero, so the fusion always succeeds. */
  method HybridRetrieve(x: ParallelOutput) returns (r: seq<string>)
    ensures r == Fuse(ToLists(x), DefaultK)
    ensures Distinct(r)
    ensures forall c :: c in r <==> InList(x.chromaDocuments, c) || InList(x.bm25Documents, c)
    ensures forall i, j :: 0 <= i < j < |r| ==> HybridScore(x, r[i]) >= HybridScore(x, r[j])
    ensures forall i, j :: (0 <= i < j < |r| && HybridScore(x, r[i]) == HybridScore(x, r[j])
                            && InList(x.chromaDocuments, r[j])) ==> InList(x.chromaDocuments, r[i])
  {
    var lists := ToLists(x);
    NoZeroTermAtDefault(lists);
    var res := ReciprocalRankFusion(lists, DefaultK);
    r := res.value;
    OccursInPair(x);
    DenseFirstOnTies(x);
  }

  lemma NoZeroTermAtDefault(lists: seq<seq<Document>>)
    ensures !HasZeroTerm(lists, DefaultK)
  {
  }

  /** A content occurs in the pair exactly when it occurs in one of the two lists. */
  lemma OccursInPair(x: ParallelOutput)
    ensures forall c :: Occurs(ToLists(x), c) <==> InList(x.chromaDocuments, c) || InList(x.bm25Documents, c)
  {
    var lists := ToLists(x);
    forall c ensures Occurs(lists, c) <==> InList(x.chromaDocuments, c) || InList(x.bm25Documents, c) {
      if InList(x.chromaDocuments, c) {
        var j :| 0 <= j < |x.chromaDocuments| && x.chromaDocuments[j].pageContent == c;
        assert lists[0][j].pageContent == c;
      }
      if InList(x.bm25Documents, c) {
        var j :| 0 <= j < |x.bm25Documents| && x.bm25Documents[j].pageContent == c;
        assert lists[1][j].pageContent == c;
      }
    }
  }

  /** The hybrid score is the dense list's score plus the keyword list's score. */
  lemma HybridScoreIsSum(x: ParallelOutput, c: string)
    ensures HybridScore(x, c)
         == ListScore(x.chromaDocuments, DefaultK, c) + ListScore(x.bm25Documents, DefaultK, c)
  {
    var lists := ToLists(x);
    assert lists[..1] == [x.chromaDocuments] && [x.chromaDocuments][..0] == [];
    assert Score(lists, DefaultK, c) == Score([x.chromaDocuments], DefaultK, c) + ListScore(x.bm25Documents, DefaultK, c);
    assert Score([x.chromaDocuments], DefaultK, c) == Score([], DefaultK, c) + ListScore(x.chromaDocuments, DefaultK, c);
  }

  /** Swapping the two retrievers changes no score: only the order among equal
      scores can change (see `RankFusion.TiesFollowListOrder`). */
  lemma ScoreIgnoresRetrieverOrder(x: ParallelOutput, c: string)
    ensures HybridScore(x, c) == HybridScore(ParallelOutput(x.bm25Documents, x.chromaDocuments), c)
  {
    HybridScoreIsSum(x, c);
    HybridScoreIsSum(ParallelOutput(x.bm25Documents, x.chromaDocuments), c);
  }

  /** Under a tie, a content found by the dense retriever is never placed behind one
      found only by the keyword retriever: the dense list is inserted into the
      dictionary first. */
  lemma DenseFirstOnTies(x: ParallelOutput)
    ensures forall i, j :: (0 <= i < j < |Fuse(ToLists(x), DefaultK)|
                            && HybridScore(x, Fuse(ToLists(x), DefaultK)[i]) == HybridScore(x, Fuse(ToLists(x), DefaultK)[j])
                            && InList(x.chromaDocuments, Fuse(ToLists(x), DefaultK)[j]))
              ==> InList(x.chromaDocuments, Fuse(ToLists(x), DefaultK)[i])
  {
    var out := Fuse(ToLists(x), DefaultK);
    forall i, j | 0 <= i < j < |out| && HybridScore(x, out[i]) == HybridScore(x, out[j])
                  && InList(x.chromaDocuments, out[j])
      ensures InList(x.chromaDocuments, out[i])
    {
      DenseFirstPair(x, i, j);
    }
  }

  lemma DenseFirstPair(x: ParallelOutput, i: nat, j: nat)
    requires i < j < |Fuse(ToLists(x), DefaultK)|
    requires HybridScore(x, Fuse(ToLists(x), DefaultK)[i]) == HybridScore(x, Fuse(ToLists(x), DefaultK)[j])
    requires InList(x.chromaDocuments, Fuse(ToLists(x), DefaultK)[j])
    ensures InList(x.chromaDocuments, Fuse(ToLists(x), DefaultK)[i])
  {
    var lists := ToLists(x);
    var out := Fuse(lists, DefaultK);
    var dense := ListKeys([], x.chromaDocuments);
    assert lists == [] + [x.chromaDocuments] + [x.bm25Documents];
    KeysAppendList([], x.chromaDocuments);
    KeysAppendList([x.chromaDocuments], x.bm25Documents);
    assert Keys(lists) == ListKeys(dense, x.bm25Documents);
    ListKeysProps([], x.chromaDocuments);
    ListKeysProps(dense, x.bm25Documents);
    FuseTiesFirstSeen(lists, DefaultK, i, j);
    var keys := Keys(lists);
    assert out[j] in dense;
    var m :| 0 <= m < |dense| && dense[m] == out[j];
    assert keys[m] == out[j];
    var a := FirstSeen(lists, out[i]);
    assert a < |dense|;
    assert dense[a] == keys[a] == out[i];
  }

  // ---------------------------------------------------------------------------
  // When both retrievers agree
  // ---------------------------------------------------------------------------

  /** The contents of a ranked list, in rank order. */
  function ContentsOf(docs: seq<Document>): (r: seq<string>)
    ensures |r| == |docs| && forall j :: 0 <= j < |docs| ==> r[j] == docs[j].pageContent
  {
    seq(|docs|, j requires 0 <= j < |docs| => docs[j].pageContent)
  }

  lemma {:induction false} ListKeysOfDistinct(docs: seq<Document>)
    requires Distinct(ContentsOf(docs))
    ensures ListKeys([], docs) == ContentsOf(docs)
    decreases |docs|
  {
    if |docs| > 0 {
      var init := docs[..|docs| - 1];
      assert ContentsOf(init) == ContentsOf(docs)[..|docs| - 1];
      ListKeysOfDistinct(init);
      assert ContentsOf(docs) == ContentsOf(init) + [docs[|docs| - 1].pageContent];
    }
  }

  lemma {:induction false} ListKeysOfKnown(keys: seq<string>, docs: seq<Document>)
    requires forall j :: 0 <= j < |docs| ==> docs[j].pageContent in keys
    ensures ListKeys(keys, docs) == keys
    decreases |docs|
  {
    if |docs| > 0 {
      ListKeysOfKnown(keys, docs[..|docs| - 1]);
    }
  }

  /** If both retrievers return the same list of distinct documents, the hybrid
      ranking is that list's contents in the same order. */
  lemma AgreeingRetrievers(docs: seq<Document>)
    requires Distinct(ContentsOf(docs))
    ensures Fuse(ToLists(ParallelOutput(docs, docs)), DefaultK) == ContentsOf(docs)
  {
    var x := ParallelOutput(docs, docs);
    var lists := ToLists(x);
    var cs := ContentsOf(docs);
    assert lists == [] + [docs] + [docs];
    KeysAppendList([], docs);
    KeysAppendList([docs], docs);
    ListKeysOfDistinct(docs);
    ListKeysOfKnown(cs, docs);
    assert Keys(lists) == cs;
    var items := ScoredKeys(lists, DefaultK);
    forall j | 0 <= j < |items| ensures items[j].1 == 2.0 * Term(j, DefaultK) {
      assert OnlyAt(docs, cs[j], j);
      ListScoreOnlyAt(docs, DefaultK, cs[j], j);
      HybridScoreIsSum(x, cs[j]);
    }
    forall i, j | 0 <= i < j < |items| ensures items[i].1 >= items[j].1 {
      TermPositiveAndDecreasing(i, j, DefaultK);
    }
    FuseOfOrderedKeys(lists, DefaultK);
  }

  // ---------------------------------------------------------------------------
  // Agreement is rewarded
  // ---------------------------------------------------------------------------

  /** One occurrence at rank `j` contributes at least its term. */
  lemma {:induction false} ListScoreAtLeast(docs: seq<Document>, k: int, c: string, j: nat)
    requires k > 0 && j < |docs| && docs[j].pageContent == c
    ensures ListScore(docs, k, c) >= Term(j, k)
    decreases |docs|
  {
    var init := docs[..|docs| - 1];
    TermPositive(|docs| - 1, k);
    if j == |docs| - 1 {
      ListScoreNonNegative(init, k, c);
    } else {
      ListScoreAtLeast(init, k, c, j);
    }
  }

  /** A content returned by both retrievers is ranked ahead of a content that only
      one retriever returned, once, at a rank no better than the first content's
      dense rank. */
  lemma FoundByBothRanksHigher(x: ParallelOutput, c: string, d: string, r1: nat, r2: nat, r: nat)
    requires r1 < |x.chromaDocuments| && x.chromaDocuments[r1].pageContent == c
    requires r2 < |x.bm25Documents| && x.bm25Documents[r2].pageContent == c
    requires r1 <= r
    requires (OnlyAt(x.chromaDocuments, d, r) && Absent(x.bm25Documents, d))
          || (Absent(x.chromaDocuments, d) && OnlyAt(x.bm25Documents, d, r))
    ensures HybridScore(x, c) > HybridScore(x, d)
    ensures forall i, j :: (0 <= i < |Fuse(ToLists(x), DefaultK)| && 0 <= j < |Fuse(ToLists(x), DefaultK)|
                            && Fuse(ToLists(x), DefaultK)[i] == c && Fuse(ToLists(x), DefaultK)[j] == d) ==> i < j
  {
    HybridScoreIsSum(x, c);
    HybridScoreIsSum(x, d);
    ListScoreAtLeast(x.chromaDocuments, DefaultK, c, r1);
    ListScoreAtLeast(x.bm25Documents, DefaultK, c, r2);
    TermPositive(r2, DefaultK);
    if r1 < r {
      TermPositiveAndDecreasing(r1, r, DefaultK);
    }
    if OnlyAt(x.chromaDocuments, d, r) && Absent(x.bm25Documents, d) {
      ListScoreOnlyAt(x.chromaDocuments, DefaultK, d, r);
      ListScoreAbsent(x.bm25Documents, DefaultK, d);
    } else {
      ListScoreAbsent(x.chromaDocuments, DefaultK, d);
      ListScoreOnlyAt(x.bm25Documents, DefaultK, d, r);
    }
    OccursInPair(x);
    HigherScoreFirst(ToLists(x), DefaultK, c, d);
  }
}
