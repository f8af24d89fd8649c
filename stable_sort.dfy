/** Python's `sorted(items, key=lambda x: x[1], reverse=True)` over (content, score)
    pairs: a stable sort into non-increasing score order, written as an insertion sort. */
module StableSort {

  /** One dictionary item: a content string and its accumulated score. */
  type Item = (string, real)

  /** Non-increasing order of score. */
  ghost predicate SortedDesc(s: seq<Item>) {
    forall i, j :: 0 <= i < j < |s| ==> s[i].1 >= s[j].1
  }

  /** The items of `s` whose score is exactly `v`, in their order in `s`. */
  function Filter(s: seq<Item>, v: real): seq<Item>
    decreases |s|
  {
    if |s| == 0 then []
    else Filter(s[..|s| - 1], v) + (if s[|s| - 1].1 == v then [s[|s| - 1]] else [])
  }

  /** Places `x` behind every item of `sorted` whose score is at least its own. */
  function Insert(sorted: seq<Item>, x: Item): (r: seq<Item>)
    ensures |r| == |sorted| + 1
    decreases |sorted|
  {
    if |sorted| == 0 then [x]
    else if sorted[|sorted| - 1].1 >= x.1 then sorted + [x]
    else Insert(sorted[..|sorted| - 1], x) + [sorted[|sorted| - 1]]
  }

  /** The library sort: insert the items one at a time, in input order. */
  function SortByScoreDesc(items: seq<Item>): (r: seq<Item>)
    ensures |r| == |items|
    decreases |items|
  {
    if |items| == 0 then []
    else Insert(SortByScoreDesc(items[..|items| - 1]), items[|items| - 1])
  }

  lemma {:induction false} FilterAppend(a: seq<Item>, b: seq<Item>, v: real)
    ensures Filter(a + b, v) == Filter(a, v) + Filter(b, v)
    decreases |b|
  {
    if |b| == 0 {
      assert a + b == a;
    } else {
      var b' := b[..|b| - 1];
      assert (a + b)[..|a + b| - 1] == a + b';
      FilterAppend(a, b', v);
    }
  }

  lemma {:induction false} InsertMultiset(sorted: seq<Item>, x: Item)
    ensures multiset(Insert(sorted, x)) == multiset(sorted) + multiset{x}
    decreases |sorted|
  {
    if |sorted| > 0 {
      var init := sorted[..|sorted| - 1];
      assert sorted == init + [sorted[|sorted| - 1]];
      InsertMultiset(init, x);
    }
  }

  lemma {:induction false} InsertSorted(sorted: seq<Item>, x: Item)
    requires SortedDesc(sorted)
    ensures SortedDesc(Insert(sorted, x))
    decreases |sorted|
  {
    if |sorted| > 0 {
      var n := |sorted|;
      var last := sorted[n - 1];
      var init := sorted[..n - 1];
      if last.1 < x.1 {
        InsertSorted(init, x);
        InsertMultiset(init, x);
        var mid := Insert(init, x);
        assert Insert(sorted, x) == mid + [last];
        forall e | e in mid ensures e.1 >= last.1 {
          assert e in multiset(mid);
          assert e == x || e in init;
        }
        forall i, j | 0 <= i < j < |mid| + 1 ensures (mid + [last])[i].1 >= (mid + [last])[j].1 {
          if j == |mid| {
            assert mid[i] in mid;
          }
        }
      }
    }
  }

  lemma {:induction false} InsertFilter(sorted: seq<Item>, x: Item, v: real)
    ensures Filter(Insert(sorted, x), v) == Filter(sorted, v) + Filter([x], v)
    decreases |sorted|
  {
    assert [x][..0] == [];
    if |sorted| > 0 {
      var n := |sorted|;
      var last := sorted[n - 1];
      var init := sorted[..n - 1];
      assert sorted == init + [last];
      if last.1 >= x.1 {
        FilterAppend(sorted, [x], v);
      } else {
        InsertFilter(init, x, v);
        var mid := Insert(init, x);
        assert Insert(sorted, x) == mid + [last];
        FilterAppend(mid, [last], v);
        FilterAppend(init, [last], v);
        assert [last][..0] == [];
      }
    }
  }

  lemma InsertCorrect(sorted: seq<Item>, x: Item)
    requires SortedDesc(sorted)
    ensures SortedDesc(Insert(sorted, x))
    ensures multiset(Insert(sorted, x)) == multiset(sorted) + multiset{x}
    ensures forall v :: Filter(Insert(sorted, x), v) == Filter(sorted, v) + Filter([x], v)
  {
    InsertSorted(sorted, x);
    InsertMultiset(sorted, x);
    forall v ensures Filter(Insert(sorted, x), v) == Filter(sorted, v) + Filter([x], v) {
      InsertFilter(sorted, x, v);
    }
  }

  /** The sort yields a non-increasing permutation of its input, and for every
      score value the items of that score keep their input order (stability). */
  lemma {:induction false} SortCorrect(items: seq<Item>)
    ensures SortedDesc(SortByScoreDesc(items))
    ensures multiset(SortByScoreDesc(items)) == multiset(items)
    ensures forall v :: Filter(SortByScoreDesc(items), v) == Filter(items, v)
    decreases |items|
  {
    if |items| > 0 {
      var init := items[..|items| - 1];
      var last := items[|items| - 1];
      SortCorrect(init);
      InsertCorrect(SortByScoreDesc(init), last);
      assert items == init + [last];
      forall v ensures Filter(items, v) == Filter(init, v) + Filter([last], v) {
        FilterAppend(init, [last], v);
      }
    }
  }

  /** An item of score `v` shows up in `Filter(s, v)`. */
  lemma {:induction false} FilterContains(s: seq<Item>, v: real, i: int)
    requires 0 <= i < |s| && s[i].1 == v
    ensures exists p :: 0 <= p < |Filter(s, v)| && Filter(s, v)[p] == s[i]
    decreases |s|
  {
    var init := s[..|s| - 1];
    if i == |s| - 1 {
      assert Filter(s, v)[|Filter(init, v)|] == s[i];
    } else {
      FilterContains(init, v, i);
      var p :| 0 <= p < |Filter(init, v)| && Filter(init, v)[p] == init[i];
      assert Filter(s, v)[p] == s[i];
    }
  }

  /** Every entry of `Filter(s, v)` is an item of `s`. */
  lemma {:induction false} FilterElement(s: seq<Item>, v: real, p: int)
    requires 0 <= p < |Filter(s, v)|
    ensures exists i :: 0 <= i < |s| && s[i] == Filter(s, v)[p]
    decreases |s|
  {
    var init := s[..|s| - 1];
    if p < |Filter(init, v)| {
      FilterElement(init, v, p);
      var i :| 0 <= i < |init| && init[i] == Filter(init, v)[p];
      assert s[i] == Filter(s, v)[p];
    } else {
      assert Filter(s, v)[p] == s[|s| - 1];
    }
  }

  /** Two items of score `v` appear in `Filter(s, v)` in the order they have in `s`. */
  lemma {:induction false} FilterKeepsOrder(s: seq<Item>, v: real, i: int, j: int)
    requires 0 <= i < j < |s| && s[i].1 == v && s[j].1 == v
    ensures exists p, q :: 0 <= p < q < |Filter(s, v)| && Filter(s, v)[p] == s[i] && Filter(s, v)[q] == s[j]
    decreases |s|
  {
    var init := s[..|s| - 1];
    if j == |s| - 1 {
      FilterContains(init, v, i);
      var p :| 0 <= p < |Filter(init, v)| && Filter(init, v)[p] == init[i];
      var q := |Filter(init, v)|;
      assert Filter(s, v)[p] == s[i] && Filter(s, v)[q] == s[j];
    } else {
      FilterKeepsOrder(init, v, i, j);
      var p, q :| 0 <= p < q < |Filter(init, v)| && Filter(init, v)[p] == init[i] && Filter(init, v)[q] == init[j];
      assert Filter(s, v)[p] == s[i] && Filter(s, v)[q] == s[j];
    }
  }

  /** Two entries of `Filter(s, v)` come from items of `s` in the same order. */
  lemma {:induction false} FilterOrderFromSource(s: seq<Item>, v: real, p: int, q: int)
    requires 0 <= p < q < |Filter(s, v)|
    ensures exists i, j :: 0 <= i < j < |s| && s[i] == Filter(s, v)[p] && s[j] == Filter(s, v)[q]
    decreases |s|
  {
    var init := s[..|s| - 1];
    var f := Filter(init, v);
    if q < |f| {
      FilterOrderFromSource(init, v, p, q);
      var i, j :| 0 <= i < j < |init| && init[i] == f[p] && init[j] == f[q];
      assert s[i] == Filter(s, v)[p] && s[j] == Filter(s, v)[q];
    } else {
      FilterElement(init, v, p);
      var i :| 0 <= i < |init| && init[i] == f[p];
      assert s[i] == Filter(s, v)[p] && s[|s| - 1] == Filter(s, v)[q];
    }
  }

  /** Stability: two output items of equal score come from input positions in
      the same order as they appear in the output. */
  lemma SortStable(items: seq<Item>, i: int, j: int)
    requires 0 <= i < j < |SortByScoreDesc(items)|
    requires SortByScoreDesc(items)[i].1 == SortByScoreDesc(items)[j].1
    ensures exists a, b :: 0 <= a < b < |items| && items[a] == SortByScoreDesc(items)[i]
                                              && items[b] == SortByScoreDesc(items)[j]
  {
    var out := SortByScoreDesc(items);
    var v := out[i].1;
    SortCorrect(items);
    FilterKeepsOrder(out, v, i, j);
    var p, q :| 0 <= p < q < |Filter(out, v)| && Filter(out, v)[p] == out[i] && Filter(out, v)[q] == out[j];
    FilterOrderFromSource(items, v, p, q);
  }

  /** Input already in non-increasing order is returned unchanged. */
  lemma {:induction false} SortOfSorted(items: seq<Item>)
    requires SortedDesc(items)
    ensures SortByScoreDesc(items) == items
    decreases |items|
  {
    if |items| > 0 {
      var init := items[..|items| - 1];
      SortOfSorted(init);
      if |init| > 0 {
        assert init[|init| - 1].1 >= items[|items| - 1].1;
      }
    }
  }
}
