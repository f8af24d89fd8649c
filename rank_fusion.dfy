/** Reciprocal Rank Fusion (`recipocal_rank_fusion`): several ranked lists of
    documents are merged into one list of distinct contents, ordered by the sum of
    1 / (rank + k) over every occurrence. Scores are exact reals here. */
module RankFusion {
  import opened Wrappers
  import opened Loader
  import opened StableSort

  /** The damping constant's default value. */
  const DefaultK: int := 60

  // ---------------------------------------------------------------------------
  // Specification: what the accumulated dictionary holds
  // ---------------------------------------------------------------------------

  /** One occurrence's contribution, `1 / (rank + k)`, for a 0-based rank. The zero
      case is never used: the method fails before reaching it. */
  function Term(rank: nat, k: int): (r: real) {
    if rank + k == 0 then 0.0 else 1.0 / (rank + k) as real
  }

  /** Some list is long enough to reach the rank `-k`, where `1 / (rank + k)`
      divides by zero. */
  predicate HasZeroTerm(lists: seq<seq<Document>>, k: int) {
    exists i :: 0 <= i < |lists| && 0 <= -k < |lists[i]|
  }

  /** The sum of the terms of the occurrences of `c` in one ranked list. */
  function ListScore(docs: seq<Document>, k: int, c: string): (r: real)
    decreases |docs|
  {
    if |docs| == 0 then 0.0
    else
      ListScore(docs[..|docs| - 1], k, c)
      + (if docs[|docs| - 1].pageContent == c then Term(|docs| - 1, k) else 0.0)
  }

  /** The fused score of content `c`: its list scores added over all lists. */
  function Score(lists: seq<seq<Document>>, k: int, c: string): (r: real)
    decreases |lists|
  {
    if |lists| == 0 then 0.0
    else Score(lists[..|lists| - 1], k, c) + ListScore(lists[|lists| - 1], k, c)
  }

  /** `c` is the content of some document of some list. */
  predicate Occurs(lists: seq<seq<Document>>, c: string) {
    exists i, j :: 0 <= i < |lists| && 0 <= j < |lists[i]| && lists[i][j].pageContent == c
  }

  function AddKey(keys: seq<string>, c: string): seq<string> {
    if c in keys then keys else keys + [c]
  }

  /** The dictionary's key order after inserting the contents of `docs` behind `keys`. */
  function ListKeys(keys: seq<string>, docs: seq<Document>): seq<string>
    decreases |docs|
  {
    if |docs| == 0 then keys
    else AddKey(ListKeys(keys, docs[..|docs| - 1]), docs[|docs| - 1].pageContent)
  }

  /** The distinct contents in first-seen order (the dictionary's insertion order). */
  function Keys(lists: seq<seq<Document>>): seq<string>
    decreases |lists|
  {
    if |lists| == 0 then [] else ListKeys(Keys(lists[..|lists| - 1]), lists[|lists| - 1])
  }

  /** The dictionary's items, `content_score_mapping.items()`. */
  function ScoredKeys(lists: seq<seq<Document>>, k: int): (r: seq<Item>)
    ensures |r| == |Keys(lists)|
  {
    var keys := Keys(lists);
    seq(|keys|, j requires 0 <= j < |keys| => (keys[j], Score(lists, k, keys[j])))
  }

  /** `[content for content, _ in ranked]`. */
  function Contents(ranked: seq<Item>): (r: seq<string>)
    ensures |r| == |ranked|
    ensures forall j :: 0 <= j < |ranked| ==> r[j] == ranked[j].0
  {
    seq(|ranked|, j requires 0 <= j < |ranked| => ranked[j].0)
  }

  /** The fused ranking: the items stably sorted by non-increasing score, scores dropped. */
  function Fuse(lists: seq<seq<Document>>, k: int): (r: seq<string>)
    ensures |r| == |Keys(lists)|
  {
    Contents(SortByScoreDesc(ScoredKeys(lists, k)))
  }

  predicate Distinct(s: seq<string>) {
    forall i, j :: 0 <= i < j < |s| ==> s[i] != s[j]
  }

  /** Position of the first occurrence of `c` in `s`. */
  function IndexOf(s: seq<string>, c: string): (r: nat)
    requires c in s
    ensures r < |s| && s[r] == c && c !in s[..r]
    ensures forall m :: 0 <= m < r ==> s[m] != c
  {
    if s[0] == c then 0 else 1 + IndexOf(s[1..], c)
  }

  /** Where `c` was first seen, i.e. its place in the dictionary's insertion order. */
  function FirstSeen(lists: seq<seq<Document>>, c: string): nat
    requires c in Keys(lists)
  {
    IndexOf(Keys(lists), c)
  }

  // ---------------------------------------------------------------------------
  // The algorithm as written: a dictionary filled by nested loops, then sorted
  // ---------------------------------------------------------------------------

  /** `recipocal_rank_fusion(retriever_outputs, k)`. Python raises ZeroDivisionError
      when some `rank + k` is zero; with the default k = 60 it never is. */
  method ReciprocalRankFusion(retrieverOutputs: seq<seq<Document>>, k: int) returns (r: Result<seq<string>>)
    ensures r.Err? <==> HasZeroTerm(retrieverOutputs, k)
    ensures r.Err? ==> r.error == ZeroDivisionError
    ensures r.Ok? ==> r.value == Fuse(retrieverOutputs, k)
    ensures r.Ok? ==> Distinct(r.value) && forall c :: c in r.value <==> Occurs(retrieverOutputs, c)
    ensures r.Ok? ==> forall i, j :: 0 <= i < j < |r.value| ==>
                        Score(retrieverOutputs, k, r.value[i]) >= Score(retrieverOutputs, k, r.value[j])
  {
    var order: seq<string> := [];            // the dictionary's insertion order
    var scores: map<string, real> := map[];  // content_score_mapping
    for i := 0 to |retrieverOutputs|
      invariant !HasZeroTerm(retrieverOutputs[..i], k)
      invariant order == Keys(retrieverOutputs[..i])
      invariant forall c :: c in scores <==> c in order
      invariant forall c :: c in scores ==> scores[c] == Score(retrieverOutputs[..i], k, c)
      invariant forall c :: c !in scores ==> Score(retrieverOutputs[..i], k, c) == 0.0
    {
      var docs := retrieverOutputs[i];
      ghost var done := retrieverOutputs[..i];
      for rank := 0 to |docs|
        invariant !(0 <= -k < rank)
        invariant order == ListKeys(Keys(done), docs[..rank])
        invariant forall c :: c in scores <==> c in order
        invariant forall c :: c in scores ==> scores[c] == Score(done, k, c) + ListScore(docs[..rank], k, c)
        invariant forall c :: c !in scores ==> Score(done, k, c) + ListScore(docs[..rank], k, c) == 0.0
      {
        PrefixStep(docs, rank, k, Keys(done));
        var content := docs[rank].pageContent;
        if content !in scores {
          scores := scores[content := 0.0];
          order := order + [content];
        }
        if rank + k == 0 {
          assert 0 <= -k < |retrieverOutputs[i]|;
          return Err(ZeroDivisionError);
        }
        scores := scores[content := scores[content] + 1.0 / (rank + k) as real];
      }
      assert docs[..|docs|] == docs;
      ListsPrefixStep(retrieverOutputs, i, k);
    }
    assert retrieverOutputs[..|retrieverOutputs|] == retrieverOutputs;
    var items := seq(|order|, j requires 0 <= j < |order| => (order[j], scores[order[j]]));
    var ranked := SortByScoreDesc(items);
    r := Ok(Contents(ranked));
    TableItemsAreScoredKeys(retrieverOutputs, k, order, scores);
    FuseExactlyOnce(retrieverOutputs, k);
    FuseNonIncreasing(retrieverOutputs, k);
  }

  /** One more rank of one list: how the key order and the list score grow. */
  lemma PrefixStep(docs: seq<Document>, rank: int, k: int, keys: seq<string>)
    requires 0 <= rank < |docs|
    ensures ListKeys(keys, docs[..rank + 1]) == AddKey(ListKeys(keys, docs[..rank]), docs[rank].pageContent)
    ensures forall c :: ListScore(docs[..rank + 1], k, c)
              == ListScore(docs[..rank], k, c) + (if docs[rank].pageContent == c then Term(rank, k) else 0.0)
  {
    assert docs[..rank + 1][..rank] == docs[..rank];
  }

  /** One more list: how the key order and the score grow. */
  lemma ListsPrefixStep(lists: seq<seq<Document>>, i: int, k: int)
    requires 0 <= i < |lists|
    ensures Keys(lists[..i + 1]) == ListKeys(Keys(lists[..i]), lists[i])
    ensures forall c :: Score(lists[..i + 1], k, c) == Score(lists[..i], k, c) + ListScore(lists[i], k, c)
    ensures !HasZeroTerm(lists[..i], k) && !(0 <= -k < |lists[i]|) ==> !HasZeroTerm(lists[..i + 1], k)
  {
    assert lists[..i + 1][..i] == lists[..i];
  }

  /** The finished dictionary's items are the specification's scored keys. */
  lemma TableItemsAreScoredKeys(lists: seq<seq<Document>>, k: int, order: seq<string>, scores: map<string, real>)
    requires order == Keys(lists)
    requires forall c :: c in scores <==> c in order
    requires forall c :: c in scores ==> scores[c] == Score(lists, k, c)
    ensures seq(|order|, j requires 0 <= j < |order| => (order[j], scores[order[j]])) == ScoredKeys(lists, k)
  {
  }

  // ---------------------------------------------------------------------------
  // Properties of the dictionary's keys
  // ---------------------------------------------------------------------------

  lemma {:induction false} ListKeysProps(keys: seq<string>, docs: seq<Document>)
    requires Distinct(keys)
    ensures Distinct(ListKeys(keys, docs))
    ensures |keys| <= |ListKeys(keys, docs)| && ListKeys(keys, docs)[..|keys|] == keys
    ensures forall c :: c in ListKeys(keys, docs) <==>
              (c in keys || exists j :: 0 <= j < |docs| && docs[j].pageContent == c)
    decreases |docs|
  {
    if |docs| > 0 {
      var init := docs[..|docs| - 1];
      ListKeysProps(keys, init);
      var prev := ListKeys(keys, init);
      assert prev[..|keys|] == keys;
      forall c ensures c in ListKeys(keys, docs) <==>
                 (c in keys || exists j :: 0 <= j < |docs| && docs[j].pageContent == c) {
        if exists j :: 0 <= j < |init| && init[j].pageContent == c {
          var j :| 0 <= j < |init| && init[j].pageContent == c;
          assert docs[j].pageContent == c;
        }
        if exists j :: 0 <= j < |docs| && docs[j].pageContent == c {
          var j :| 0 <= j < |docs| && docs[j].pageContent == c;
          if j < |init| {
            assert init[j].pageContent == c;
          }
        }
      }
    }
  }

  /** The keys are distinct and are exactly the contents that occur in some list. */
  lemma {:induction false} KeysDistinctAndComplete(lists: seq<seq<Document>>)
    ensures Distinct(Keys(lists))
    ensures forall c :: c in Keys(lists) <==> Occurs(lists, c)
    decreases |lists|
  {
    if |lists| > 0 {
      var init := lists[..|lists| - 1];
      var last := lists[|lists| - 1];
      KeysDistinctAndComplete(init);
      ListKeysProps(Keys(init), last);
      forall c ensures c in Keys(lists) <==> Occurs(lists, c) {
        if Occurs(init, c) {
          var i, j :| 0 <= i < |init| && 0 <= j < |init[i]| && init[i][j].pageContent == c;
          assert lists[i][j].pageContent == c;
        }
        if Occurs(lists, c) {
          var i, j :| 0 <= i < |lists| && 0 <= j < |lists[i]| && lists[i][j].pageContent == c;
          if i < |init| {
            assert init[i][j].pageContent == c;
          }
        }
      }
    }
  }

  lemma IndexOfDistinct(s: seq<string>, a: int)
    requires Distinct(s) && 0 <= a < |s|
    ensures IndexOf(s, s[a]) == a
  {
  }

  // ---------------------------------------------------------------------------
  // Properties of the fused ranking
  // ---------------------------------------------------------------------------

  /** Sorting items whose first components are distinct keys: the result is a
      non-increasing rearrangement of the items with distinct contents, and items of
      equal score keep the order of their keys. */
  lemma SortKeyedItems(keys: seq<string>, items: seq<Item>)
    requires Distinct(keys) && |items| == |keys|
    requires forall a :: 0 <= a < |keys| ==> items[a].0 == keys[a]
    ensures |SortByScoreDesc(items)| == |keys|
    ensures SortedDesc(SortByScoreDesc(items))
    ensures forall i :: 0 <= i < |SortByScoreDesc(items)| ==> SortByScoreDesc(items)[i] in items
    ensures Distinct(Contents(SortByScoreDesc(items)))
    ensures forall c :: c in Contents(SortByScoreDesc(items)) <==> c in keys
    ensures forall i, j :: 0 <= i < j < |SortByScoreDesc(items)| && SortByScoreDesc(items)[i].1 == SortByScoreDesc(items)[j].1
              ==> IndexOf(keys, SortByScoreDesc(items)[i].0) < IndexOf(keys, SortByScoreDesc(items)[j].0)
  {
    SortedMembers(items);
    SortedTiesKeepKeyOrder(keys, items);
    SortedContentsDistinct(keys, items);
    SortedContentsAreKeys(keys, items);
  }

  lemma SortedMembers(items: seq<Item>)
    ensures |SortByScoreDesc(items)| == |items|
    ensures SortedDesc(SortByScoreDesc(items))
    ensures forall i :: 0 <= i < |SortByScoreDesc(items)| ==> SortByScoreDesc(items)[i] in items
  {
    var out := SortByScoreDesc(items);
    SortCorrect(items);
    assert |out| == |multiset(out)| == |multiset(items)| == |items|;
    forall i | 0 <= i < |out| ensures out[i] in items {
      assert out[i] in multiset(out);
    }
  }

  lemma SortedTiesKeepKeyOrder(keys: seq<string>, items: seq<Item>)
    requires Distinct(keys) && |items| == |keys|
    requires forall a :: 0 <= a < |keys| ==> items[a].0 == keys[a]
    ensures forall i :: 0 <= i < |SortByScoreDesc(items)| ==> SortByScoreDesc(items)[i].0 in keys
    ensures forall i, j :: 0 <= i < j < |SortByScoreDesc(items)| && SortByScoreDesc(items)[i].1 == SortByScoreDesc(items)[j].1
              ==> IndexOf(keys, SortByScoreDesc(items)[i].0) < IndexOf(keys, SortByScoreDesc(items)[j].0)
  {
    var out := SortByScoreDesc(items);
    SortedMembers(items);
    forall i | 0 <= i < |out| ensures out[i].0 in keys {
      var a :| 0 <= a < |items| && items[a] == out[i];
    }
    forall i, j | 0 <= i < j < |out| && out[i].1 == out[j].1
      ensures IndexOf(keys, out[i].0) < IndexOf(keys, out[j].0)
    {
      SortStable(items, i, j);
      var a, b :| 0 <= a < b < |items| && items[a] == out[i] && items[b] == out[j];
      IndexOfDistinct(keys, a);
      IndexOfDistinct(keys, b);
    }
  }

  lemma SortedContentsDistinct(keys: seq<string>, items: seq<Item>)
    requires Distinct(keys) && |items| == |keys|
    requires forall a :: 0 <= a < |keys| ==> items[a].0 == keys[a]
    ensures Distinct(Contents(SortByScoreDesc(items)))
  {
    var out := SortByScoreDesc(items);
    var r := Contents(out);
    SortedMembers(items);
    SortCorrect(items);
    forall i, j | 0 <= i < j < |r| ensures r[i] != r[j] {
      DistinctPair(keys, items, out, i, j);
    }
  }

  /** Two positions of a rearrangement of keyed items hold different keys. */
  lemma DistinctPair(keys: seq<string>, items: seq<Item>, out: seq<Item>, i: int, j: int)
    requires Distinct(keys) && |items| == |keys|
    requires forall a :: 0 <= a < |keys| ==> items[a].0 == keys[a]
    requires multiset(out) == multiset(items) && 0 <= i < j < |out|
    requires out[i] in items && out[j] in items
    ensures out[i].0 != out[j].0
  {
    var a :| 0 <= a < |items| && items[a] == out[i];
    var b :| 0 <= b < |items| && items[b] == out[j];
    if out[i].0 == out[j].0 {
      assert a == b;
      CountTwo(out, i, j);
      CountOne(keys, items, a);
    }
  }

  lemma SortedContentsAreKeys(keys: seq<string>, items: seq<Item>)
    requires |items| == |keys|
    requires forall a :: 0 <= a < |keys| ==> items[a].0 == keys[a]
    ensures forall c :: c in Contents(SortByScoreDesc(items)) <==> c in keys
  {
    var out := SortByScoreDesc(items);
    var r := Contents(out);
    SortedMembers(items);
    SortCorrect(items);
    forall c | c in r ensures c in keys {
      var i :| 0 <= i < |r| && r[i] == c;
      var a :| 0 <= a < |items| && items[a] == out[i];
    }
    forall c | c in keys ensures c in r {
      var a :| 0 <= a < |keys| && keys[a] == c;
      KeyInContents(keys, items, out, a);
    }
  }

  /** Every key's item survives a rearrangement. */
  lemma KeyInContents(keys: seq<string>, items: seq<Item>, out: seq<Item>, a: int)
    requires |items| == |keys| && 0 <= a < |keys|
    requires forall a :: 0 <= a < |keys| ==> items[a].0 == keys[a]
    requires multiset(out) == multiset(items)
    ensures keys[a] in Contents(out)
  {
    assert items[a] in multiset(items);
    var i :| 0 <= i < |out| && out[i] == items[a];
    assert Contents(out)[i] == keys[a];
  }

  /** Two equal entries make an element occur at least twice. */
  lemma CountTwo(s: seq<Item>, i: int, j: int)
    requires 0 <= i < j < |s|
    ensures s[i] == s[j] ==> multiset(s)[s[i]] >= 2
  {
    assert s == s[..i] + [s[i]] + s[i + 1..j] + [s[j]] + s[j + 1..];
  }

  /** An item of a keyed sequence with distinct keys occurs once. */
  lemma CountOne(keys: seq<string>, items: seq<Item>, a: int)
    requires Distinct(keys) && |items| == |keys| && 0 <= a < |items|
    requires forall a :: 0 <= a < |keys| ==> items[a].0 == keys[a]
    ensures multiset(items)[items[a]] == 1
  {
    assert items == items[..a] + [items[a]] + items[a + 1..];
    assert items[a] !in items[..a];
    assert items[a] !in items[a + 1..];
  }

  /** The sorted items of the dictionary, with the facts the lemmas below share. */
  lemma FuseFacts(lists: seq<seq<Document>>, k: int)
    ensures Distinct(Keys(lists))
    ensures Fuse(lists, k) == Contents(SortByScoreDesc(ScoredKeys(lists, k)))
    ensures |SortByScoreDesc(ScoredKeys(lists, k))| == |Keys(lists)|
    ensures forall i :: 0 <= i < |SortByScoreDesc(ScoredKeys(lists, k))| ==>
              SortByScoreDesc(ScoredKeys(lists, k))[i].1 == Score(lists, k, SortByScoreDesc(ScoredKeys(lists, k))[i].0)
  {
    var items := ScoredKeys(lists, k);
    KeysDistinctAndComplete(lists);
    SortKeyedItems(Keys(lists), items);
    var out := SortByScoreDesc(items);
    forall i | 0 <= i < |out| ensures out[i].1 == Score(lists, k, out[i].0) {
      var a :| 0 <= a < |items| && items[a] == out[i];
    }
  }

  /** The output holds every distinct content of every input list exactly once,
      and nothing else. */
  lemma FuseExactlyOnce(lists: seq<seq<Document>>, k: int)
    ensures Distinct(Fuse(lists, k))
    ensures |Fuse(lists, k)| == |Keys(lists)|
    ensures forall c :: c in Fuse(lists, k) <==> Occurs(lists, c)
  {
    KeysDistinctAndComplete(lists);
    SortKeyedItems(Keys(lists), ScoredKeys(lists, k));
  }

  /** The output is ordered by non-increasing fused score. */
  lemma FuseNonIncreasing(lists: seq<seq<Document>>, k: int)
    ensures forall i, j :: 0 <= i < j < |Fuse(lists, k)| ==>
              Score(lists, k, Fuse(lists, k)[i]) >= Score(lists, k, Fuse(lists, k)[j])
  {
    FuseFacts(lists, k);
    KeysDistinctAndComplete(lists);
    SortKeyedItems(Keys(lists), ScoredKeys(lists, k));
  }

  /** Contents with equal scores keep the order in which they were first seen. */
  lemma FuseTiesFirstSeen(lists: seq<seq<Document>>, k: int, i: int, j: int)
    requires 0 <= i < j < |Fuse(lists, k)|
    requires Score(lists, k, Fuse(lists, k)[i]) == Score(lists, k, Fuse(lists, k)[j])
    ensures Fuse(lists, k)[i] in Keys(lists) && Fuse(lists, k)[j] in Keys(lists)
    ensures FirstSeen(lists, Fuse(lists, k)[i]) < FirstSeen(lists, Fuse(lists, k)[j])
  {
    FuseFacts(lists, k);
    KeysDistinctAndComplete(lists);
    SortKeyedItems(Keys(lists), ScoredKeys(lists, k));
    var out := SortByScoreDesc(ScoredKeys(lists, k));
    assert out[i].1 == out[j].1;
  }

  lemma {:induction false} KeysOfEmptyLists(lists: seq<seq<Document>>)
    requires forall i :: 0 <= i < |lists| ==> lists[i] == []
    ensures Keys(lists) == []
    decreases |lists|
  {
    if |lists| > 0 {
      KeysOfEmptyLists(lists[..|lists| - 1]);
    }
  }

  /** No documents at all, or only empty lists, give an empty ranking. */
  lemma FuseEmpty(lists: seq<seq<Document>>, k: int)
    requires forall i :: 0 <= i < |lists| ==> lists[i] == []
    ensures Fuse(lists, k) == []
  {
    KeysOfEmptyLists(lists);
    FuseExactlyOnce(lists, k);
  }

  // ---------------------------------------------------------------------------
  // Properties of the score
  // ---------------------------------------------------------------------------

  /** Score is additive over lists. */
  lemma ScoreAppendList(lists: seq<seq<Document>>, docs: seq<Document>, k: int, c: string)
    ensures Score(lists + [docs], k, c) == Score(lists, k, c) + ListScore(docs, k, c)
  {
    assert (lists + [docs])[..|lists|] == lists;
  }

  /** Within one list every occurrence adds its own term, so a repeat counts again. */
  lemma ListScoreAppend(docs: seq<Document>, d: Document, k: int, c: string)
    ensures ListScore(docs + [d], k, c)
         == ListScore(docs, k, c) + (if d.pageContent == c then Term(|docs|, k) else 0.0)
  {
    assert (docs + [d])[..|docs|] == docs;
  }

  /** With k > 0 every term is positive, and a better (smaller) rank gives a larger term. */
  lemma TermPositiveAndDecreasing(r1: nat, r2: nat, k: int)
    requires k > 0 && r1 < r2
    ensures 0.0 < Term(r2, k) < Term(r1, k)
  {
    var a := (r1 + k) as real;
    var b := (r2 + k) as real;
    ReciprocalDecreasing(a, b);
  }

  /** 0 < a < b gives 0 < 1/b < 1/a. */
  lemma ReciprocalDecreasing(a: real, b: real)
    requires 0.0 < a < b
    ensures 0.0 < 1.0 / b < 1.0 / a
  {
    var x := 1.0 / a;
    var y := 1.0 / b;
    assert x * a == 1.0 && y * b == 1.0;
    MulPositive(y, b - a);
    assert y * (b - a) == y * b - y * a;
    if x <= y {
      MulNonNegative(y - x, a);
      assert (y - x) * a == y * a - x * a;
    }
  }

  lemma MulPositive(p: real, q: real)
    requires p > 0.0 && q > 0.0
    ensures p * q > 0.0
  {
  }

  lemma MulNonNegative(p: real, q: real)
    requires p >= 0.0 && q > 0.0
    ensures p * q >= 0.0
  {
  }

  lemma TermPositive(r: nat, k: int)
    requires k > 0
    ensures Term(r, k) > 0.0
  {
  }

  lemma {:induction false} ListScoreNonNegative(docs: seq<Document>, k: int, c: string)
    requires k > 0
    ensures ListScore(docs, k, c) >= 0.0
    ensures (exists j :: 0 <= j < |docs| && docs[j].pageContent == c) ==> ListScore(docs, k, c) > 0.0
    decreases |docs|
  {
    if |docs| > 0 {
      var init := docs[..|docs| - 1];
      ListScoreNonNegative(init, k, c);
      TermPositive(|docs| - 1, k);
      if exists j :: 0 <= j < |docs| && docs[j].pageContent == c {
        var j :| 0 <= j < |docs| && docs[j].pageContent == c;
        if j < |init| {
          assert init[j].pageContent == c;
        }
      }
    }
  }

  /** Adding a list that contains `c` strictly raises the score of `c` (k > 0). */
  lemma ScoreStrictlyIncreases(lists: seq<seq<Document>>, docs: seq<Document>, k: int, c: string)
    requires k > 0
    requires exists j :: 0 <= j < |docs| && docs[j].pageContent == c
    ensures Score(lists + [docs], k, c) > Score(lists, k, c)
  {
    ScoreAppendList(lists, docs, k, c);
    ListScoreNonNegative(docs, k, c);
  }

  /** With k > 0 every content that occurs has a positive score. */
  lemma {:induction false} ScorePositive(lists: seq<seq<Document>>, k: int, c: string)
    requires k > 0
    ensures Score(lists, k, c) >= 0.0
    ensures Occurs(lists, c) ==> Score(lists, k, c) > 0.0
    decreases |lists|
  {
    if |lists| > 0 {
      var init := lists[..|lists| - 1];
      var last := lists[|lists| - 1];
      ScorePositive(init, k, c);
      ListScoreNonNegative(last, k, c);
      if Occurs(lists, c) {
        var i, j :| 0 <= i < |lists| && 0 <= j < |lists[i]| && lists[i][j].pageContent == c;
        if i < |init| {
          assert init[i][j].pageContent == c;
        }
      }
    }
  }

  // ---------------------------------------------------------------------------
  // An independent reference definition of the score
  // ---------------------------------------------------------------------------

  /** Every (content, rank) occurrence, list by list, in iteration order. */
  function Occurrences(lists: seq<seq<Document>>): seq<(string, nat)>
    decreases |lists|
  {
    if |lists| == 0 then []
    else
      var docs := lists[|lists| - 1];
      Occurrences(lists[..|lists| - 1])
        + seq(|docs|, r requires 0 <= r < |docs| => (docs[r].pageContent, r as nat))
  }

  /** The sum of `1 / (rank + k)` over the occurrences of `c`. */
  function SumTerms(occ: seq<(string, nat)>, k: int, c: string): real
    decreases |occ|
  {
    if |occ| == 0 then 0.0
    else (if occ[0].0 == c then Term(occ[0].1, k) else 0.0) + SumTerms(occ[1..], k, c)
  }

  lemma {:induction false} SumTermsAppend(a: seq<(string, nat)>, b: seq<(string, nat)>, k: int, c: string)
    ensures SumTerms(a + b, k, c) == SumTerms(a, k, c) + SumTerms(b, k, c)
    decreases |a|
  {
    if |a| > 0 {
      assert (a + b)[1..] == a[1..] + b;
      SumTermsAppend(a[1..], b, k, c);
    } else {
      assert a + b == b;
    }
  }

  lemma {:induction false} ListScoreIsSum(docs: seq<Document>, k: int, c: string)
    ensures ListScore(docs, k, c)
         == SumTerms(seq(|docs|, r requires 0 <= r < |docs| => (docs[r].pageContent, r as nat)), k, c)
    decreases |docs|
  {
    var occ := seq(|docs|, r requires 0 <= r < |docs| => (docs[r].pageContent, r as nat));
    if |docs| > 0 {
      var init := docs[..|docs| - 1];
      var occInit := seq(|init|, r requires 0 <= r < |init| => (init[r].pageContent, r as nat));
      ListScoreIsSum(init, k, c);
      assert occ == occInit + [occ[|docs| - 1]];
      SumTermsAppend(occInit, [occ[|docs| - 1]], k, c);
      assert [occ[|docs| - 1]][1..] == occ[..0];
    }
  }

  /** A content's score is the sum of `1 / (rank + k)` over all of its
      (list, 0-based rank) occurrences. */
  lemma {:induction false} ScoreIsSumOverOccurrences(lists: seq<seq<Document>>, k: int, c: string)
    ensures Score(lists, k, c) == SumTerms(Occurrences(lists), k, c)
    decreases |lists|
  {
    if |lists| > 0 {
      var init := lists[..|lists| - 1];
      var docs := lists[|lists| - 1];
      ScoreIsSumOverOccurrences(init, k, c);
      var occ := seq(|docs|, r requires 0 <= r < |docs| => (docs[r].pageContent, r as nat));
      SumTermsAppend(Occurrences(init), occ, k, c);
      ListScoreIsSum(docs, k, c);
    }
  }

  // ---------------------------------------------------------------------------
  // Single occurrences, used by the two-list (hybrid) properties
  // ---------------------------------------------------------------------------

  /** `c` occurs in `docs` at rank `r` and nowhere else. */
  predicate OnlyAt(docs: seq<Document>, c: string, r: nat) {
    r < |docs| && docs[r].pageContent == c
    && forall j :: 0 <= j < |docs| && j != r ==> docs[j].pageContent != c
  }

  predicate Absent(docs: seq<Document>, c: string) {
    forall j :: 0 <= j < |docs| ==> docs[j].pageContent != c
  }

  lemma {:induction false} ListScoreAbsent(docs: seq<Document>, k: int, c: string)
    requires Absent(docs, c)
    ensures ListScore(docs, k, c) == 0.0
    decreases |docs|
  {
    if |docs| > 0 {
      ListScoreAbsent(docs[..|docs| - 1], k, c);
    }
  }

  lemma {:induction false} ListScoreOnlyAt(docs: seq<Document>, k: int, c: string, r: nat)
    requires OnlyAt(docs, c, r)
    ensures ListScore(docs, k, c) == Term(r, k)
    decreases |docs|
  {
    var init := docs[..|docs| - 1];
    if r == |docs| - 1 {
      ListScoreAbsent(init, k, c);
    } else {
      ListScoreOnlyAt(init, k, c, r);
    }
  }

  /** A content placed strictly before another in the ranking when its score is
      strictly higher. */
  lemma HigherScoreFirst(lists: seq<seq<Document>>, k: int, c: string, d: string)
    requires Occurs(lists, c) && Occurs(lists, d)
    requires Score(lists, k, c) > Score(lists, k, d)
    ensures c in Fuse(lists, k) && d in Fuse(lists, k)
    ensures forall i, j ::
              (0 <= i < |Fuse(lists, k)| && 0 <= j < |Fuse(lists, k)| && Fuse(lists, k)[i] == c && Fuse(lists, k)[j] == d)
              ==> i < j
  {
    FuseExactlyOnce(lists, k);
    FuseNonIncreasing(lists, k);
  }

  // ---------------------------------------------------------------------------
  // Worked examples
  // ---------------------------------------------------------------------------

  function Doc(c: string): Document {
    Document(c, map[])
  }

  /** Inputs whose dictionary items are already in non-increasing score order
      come out in first-seen order. */
  lemma FuseOfOrderedKeys(lists: seq<seq<Document>>, k: int)
    requires SortedDesc(ScoredKeys(lists, k))
    ensures Fuse(lists, k) == Keys(lists)
  {
    SortOfSorted(ScoredKeys(lists, k));
  }

  lemma KeysAppendList(lists: seq<seq<Document>>, l: seq<Document>)
    ensures Keys(lists + [l]) == ListKeys(Keys(lists), l)
  {
    assert (lists + [l])[..|lists|] == lists;
  }

  lemma ListKeysAppend(keys: seq<string>, docs: seq<Document>, d: Document)
    ensures ListKeys(keys, docs + [d]) == AddKey(ListKeys(keys, docs), d.pageContent)
  {
    assert (docs + [d])[..|docs|] == docs;
  }

  lemma ThreeDocs(keys: seq<string>, d1: Document, d2: Document, d3: Document, k: int, c: string)
    ensures ListKeys(keys, [d1, d2, d3])
         == AddKey(AddKey(AddKey(keys, d1.pageContent), d2.pageContent), d3.pageContent)
    ensures ListScore([d1, d2, d3], k, c)
         == (if d1.pageContent == c then Term(0, k) else 0.0)
          + (if d2.pageContent == c then Term(1, k) else 0.0)
          + (if d3.pageContent == c then Term(2, k) else 0.0)
  {
    TwoDocs(keys, d1, d2, k, c);
    assert [d1, d2, d3] == [d1, d2] + [d3];
    ListKeysAppend(keys, [d1, d2], d3);
    ListScoreAppend([d1, d2], d3, k, c);
  }

  lemma TwoDocs(keys: seq<string>, d1: Document, d2: Document, k: int, c: string)
    ensures ListKeys(keys, [d1, d2]) == AddKey(AddKey(keys, d1.pageContent), d2.pageContent)
    ensures ListScore([d1, d2], k, c)
         == (if d1.pageContent == c then Term(0, k) else 0.0)
          + (if d2.pageContent == c then Term(1, k) else 0.0)
  {
    OneDoc(keys, d1, k, c);
    assert [d1, d2] == [d1] + [d2];
    ListKeysAppend(keys, [d1], d2);
    ListScoreAppend([d1], d2, k, c);
  }

  lemma OneDoc(keys: seq<string>, d1: Document, k: int, c: string)
    ensures ListKeys(keys, [d1]) == AddKey(keys, d1.pageContent)
    ensures ListScore([d1], k, c) == (if d1.pageContent == c then Term(0, k) else 0.0)
  {
    assert [d1] == [] + [d1];
    ListKeysAppend(keys, [], d1);
    ListScoreAppend([], d1, k, c);
  }

  /** The lists [[A, B, C], [B, A, D], [A, C]]. */
  function ThreeLists(): seq<seq<Document>> {
    [[Doc("A"), Doc("B"), Doc("C")], [Doc("B"), Doc("A"), Doc("D")], [Doc("A"), Doc("C")]]
  }

  lemma ThreeListsKeys()
    ensures Keys(ThreeLists()) == ["A", "B", "C", "D"]
  {
    var lists := ThreeLists();
    var l1, l2, l3 := lists[0], lists[1], lists[2];
    assert lists == [l1, l2] + [l3];
    assert [l1, l2] == [l1] + [l2];
    assert [l1] == [] + [l1];
    FirstListKeys(l1);
    SecondListKeys(l1, l2);
    KeysAppendList([l1, l2], l3);
    TwoDocs(["A", "B", "C", "D"], Doc("A"), Doc("C"), 60, "A");
    assert AddKey(AddKey(["A", "B", "C", "D"], "A"), "C") == ["A", "B", "C", "D"];
  }

  lemma FirstListKeys(l1: seq<Document>)
    requires l1 == [Doc("A"), Doc("B"), Doc("C")]
    ensures Keys([l1]) == ["A", "B", "C"]
  {
    assert [l1] == [] + [l1];
    KeysAppendList([], l1);
    ThreeDocs([], Doc("A"), Doc("B"), Doc("C"), 60, "A");
    assert AddKey(AddKey(AddKey([], "A"), "B"), "C") == ["A", "B", "C"];
  }

  lemma SecondListKeys(l1: seq<Document>, l2: seq<Document>)
    requires Keys([l1]) == ["A", "B", "C"]
    requires l2 == [Doc("B"), Doc("A"), Doc("D")]
    ensures Keys([l1, l2]) == ["A", "B", "C", "D"]
  {
    assert [l1, l2] == [l1] + [l2];
    KeysAppendList([l1], l2);
    ThreeDocs(["A", "B", "C"], Doc("B"), Doc("A"), Doc("D"), 60, "A");
    assert AddKey(AddKey(AddKey(["A", "B", "C"], "B"), "A"), "D") == ["A", "B", "C", "D"];
  }

  lemma ThreeListsScore(c: string)
    ensures Score(ThreeLists(), 60, c)
         == (if c == "A" then 1.0 / 60.0 + 1.0 / 61.0 + 1.0 / 60.0
             else if c == "B" then 1.0 / 61.0 + 1.0 / 60.0
             else if c == "C" then 1.0 / 62.0 + 1.0 / 61.0
             else if c == "D" then 1.0 / 62.0
             else 0.0)
  {
    var lists := ThreeLists();
    var l1, l2, l3 := lists[0], lists[1], lists[2];
    assert lists == [] + [l1] + [l2] + [l3];
    assert [l1] + [l2] == [l1, l2];
    ScoreAppendList([], l1, 60, c);
    ScoreAppendList([l1], l2, 60, c);
    ScoreAppendList([l1, l2], l3, 60, c);
    ThreeDocs([], Doc("A"), Doc("B"), Doc("C"), 60, c);
    ThreeDocs([], Doc("B"), Doc("A"), Doc("D"), 60, c);
    TwoDocs([], Doc("A"), Doc("C"), 60, c);
  }

  /** Three lists [[A, B, C], [B, A, D], [A, C]] with k = 60: A (in all three)
      comes first, then B, then C, then D. */
  lemma ThreeListExample()
    ensures Fuse(ThreeLists(), 60) == ["A", "B", "C", "D"]
  {
    var lists := ThreeLists();
    ThreeListsKeys();
    var items := ScoredKeys(lists, 60);
    ThreeListsScore("A");
    ThreeListsScore("B");
    ThreeListsScore("C");
    ThreeListsScore("D");
    assert items[0].1 >= items[1].1 >= items[2].1 >= items[3].1;
    FuseOfOrderedKeys(lists, 60);
  }

  /** Ties are broken by first-seen order, so the result depends on the order of
      the input lists: fusing the same two one-element lists in the other order
      swaps the output. */
  lemma TiesFollowListOrder()
    ensures Fuse([[Doc("A")], [Doc("B")]], 60) == ["A", "B"]
    ensures Fuse([[Doc("B")], [Doc("A")]], 60) == ["B", "A"]
  {
    TwoSingletons("A", "B");
    TwoSingletons("B", "A");
  }

  lemma TwoSingletons(a: string, b: string)
    requires a != b
    ensures Fuse([[Doc(a)], [Doc(b)]], 60) == [a, b]
  {
    var lists := [[Doc(a)], [Doc(b)]];
    assert lists == [] + [[Doc(a)]] + [[Doc(b)]];
    KeysAppendList([], [Doc(a)]);
    KeysAppendList([[Doc(a)]], [Doc(b)]);
    OneDoc([], Doc(a), 60, a);
    OneDoc([a], Doc(b), 60, a);
    assert Keys(lists) == [a, b];
    ScoreAppendList([], [Doc(a)], 60, a);
    ScoreAppendList([[Doc(a)]], [Doc(b)], 60, a);
    ScoreAppendList([], [Doc(a)], 60, b);
    ScoreAppendList([[Doc(a)]], [Doc(b)], 60, b);
    OneDoc([], Doc(b), 60, a);
    OneDoc([], Doc(a), 60, b);
    OneDoc([], Doc(b), 60, b);
    assert Score(lists, 60, a) == 1.0 / 60.0;
    assert Score(lists, 60, b) == 1.0 / 60.0;
    FuseOfOrderedKeys(lists, 60);
  }
}
