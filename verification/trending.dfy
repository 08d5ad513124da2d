/**
 * The search counter of the Flask assistant: `trending_searches`, a
 * `collections.Counter` (flask-backend/app.py line 26), incremented by
 * `ask` and `similar` (lines 111, 229) and read by `/trending` through
 * `most_common(10)` (lines 249-257).
 *
 * A Counter is a dictionary: its keys keep the order in which they were
 * first inserted. `most_common(n)` is the first n entries of a stable sort
 * of the entries by count, largest first.
 */
module Trending {

  /** One `(query, count)` pair. */
  datatype Entry = Entry(query: string, count: nat)

  predicate Distinct(qs: seq<string>) {
    forall i, j :: 0 <= i < j < |qs| ==> qs[i] != qs[j]
  }

  /** The counter's entries in insertion order. */
  function Entries(order: seq<string>, counts: map<string, nat>): (es: seq<Entry>)
    requires forall q :: q in order ==> q in counts
    ensures |es| == |order|
    ensures forall i :: 0 <= i < |order| ==> es[i] == Entry(order[i], counts[order[i]])
  {
    seq(|order|, i requires 0 <= i < |order| => Entry(order[i], counts[order[i]]))
  }

  /** Counts never rise from one entry to a later one. */
  predicate NonIncreasing(es: seq<Entry>) {
    forall i, j :: 0 <= i < j < |es| ==> es[i].count >= es[j].count
  }

  /** Insert `e` after every entry whose count is at least its own. */
  function InsertDesc(sorted: seq<Entry>, e: Entry): (r: seq<Entry>)
    ensures |r| == |sorted| + 1
  {
    if sorted == [] then [e]
    else if sorted[0].count >= e.count then [sorted[0]] + InsertDesc(sorted[1..], e)
    else [e] + sorted
  }

  /** Stable sort by count, largest first: entries are inserted in their order. */
  function SortDesc(es: seq<Entry>): (r: seq<Entry>)
    ensures |r| == |es|
    decreases |es|
  {
    if es == [] then [] else InsertDesc(SortDesc(es[..|es| - 1]), es[|es| - 1])
  }

  function Take(es: seq<Entry>, n: nat): (r: seq<Entry>)
    ensures |r| == if n < |es| then n else |es|
    ensures r == es[..|r|]
  {
    if n < |es| then es[..n] else es
  }

  /** `Counter.most_common(n)`: at most n entries, largest counts first. */
  function MostCommon(order: seq<string>, counts: map<string, nat>, n: nat): (r: seq<Entry>)
    requires forall q :: q in order ==> q in counts
    ensures |r| == if n < |order| then n else |order|
    ensures NonIncreasing(r)
  {
    SortedEntries(order, counts);
    Take(SortDesc(Entries(order, counts)), n)
  }

  lemma {:induction false} InsertDescPermutes(sorted: seq<Entry>, e: Entry)
    ensures multiset(InsertDesc(sorted, e)) == multiset(sorted) + multiset{e}
    decreases |sorted|
  {
    if sorted != [] && sorted[0].count >= e.count {
      InsertDescPermutes(sorted[1..], e);
      assert sorted == [sorted[0]] + sorted[1..];
    }
  }

  predicate AtMost(es: seq<Entry>, c: nat) {
    forall i :: 0 <= i < |es| ==> es[i].count <= c
  }

  lemma {:induction false} InsertDescAtMost(sorted: seq<Entry>, e: Entry, c: nat)
    requires AtMost(sorted, c) && e.count <= c
    ensures AtMost(InsertDesc(sorted, e), c)
    decreases |sorted|
  {
    if sorted != [] && sorted[0].count >= e.count {
      InsertDescAtMost(sorted[1..], e, c);
    }
  }

  /** Prepending an entry no smaller than the rest keeps a sorted list sorted. */
  lemma Prepend(head: Entry, rest: seq<Entry>)
    requires NonIncreasing(rest) && AtMost(rest, head.count)
    ensures NonIncreasing([head] + rest)
  {
    var r := [head] + rest;
    forall i, j | 0 <= i < j < |r| ensures r[i].count >= r[j].count {
      assert r[j] == rest[j - 1];
      if i > 0 {
        assert r[i] == rest[i - 1];
      }
    }
  }

  lemma {:induction false} InsertDescSorted(sorted: seq<Entry>, e: Entry)
    requires NonIncreasing(sorted)
    ensures NonIncreasing(InsertDesc(sorted, e))
    decreases |sorted|
  {
    if sorted == [] {
    } else if sorted[0].count >= e.count {
      var tail := sorted[1..];
      assert NonIncreasing(tail) by {
        forall i, j | 0 <= i < j < |tail| ensures tail[i].count >= tail[j].count {
          assert tail[i] == sorted[i + 1] && tail[j] == sorted[j + 1];
        }
      }
      assert AtMost(tail, sorted[0].count) by {
        forall i | 0 <= i < |tail| ensures tail[i].count <= sorted[0].count {
          assert tail[i] == sorted[i + 1];
        }
      }
      InsertDescSorted(tail, e);
      InsertDescAtMost(tail, e, sorted[0].count);
      Prepend(sorted[0], InsertDesc(tail, e));
    } else {
      assert AtMost(sorted, e.count) by {
        forall i | 0 <= i < |sorted| ensures sorted[i].count <= e.count {
          assert sorted[0].count >= sorted[i].count || i == 0;
        }
      }
      Prepend(e, sorted);
    }
  }

  /** The stable sort orders the entries by count and is a permutation of them. */
  lemma {:induction false} SortDescSpec(es: seq<Entry>)
    ensures NonIncreasing(SortDesc(es))
    ensures multiset(SortDesc(es)) == multiset(es)
    decreases |es|
  {
    if es != [] {
      var init, last := es[..|es| - 1], es[|es| - 1];
      assert SortDesc(es) == InsertDesc(SortDesc(init), last);
      SortDescSpec(init);
      InsertDescSorted(SortDesc(init), last);
      InsertDescPermutes(SortDesc(init), last);
      assert es == init + [last];
      assert multiset(es) == multiset(init) + multiset{last};
    }
  }

  /** The sorted entries are the counter's entries, rearranged. */
  lemma SortedEntries(order: seq<string>, counts: map<string, nat>)
    requires forall q :: q in order ==> q in counts
    ensures NonIncreasing(SortDesc(Entries(order, counts)))
    ensures multiset(SortDesc(Entries(order, counts))) == multiset(Entries(order, counts))
    ensures |SortDesc(Entries(order, counts))| == |order|
  {
    var es := Entries(order, counts);
    SortDescSpec(es);
    assert |multiset(SortDesc(es))| == |multiset(es)|;
  }

  /** Every listed entry carries the count the counter holds for its query. */
  lemma MostCommonCounts(order: seq<string>, counts: map<string, nat>, n: nat)
    requires forall q :: q in order ==> q in counts
    ensures forall e :: e in MostCommon(order, counts, n) ==> e.query in order && e.count == counts[e.query]
  {
    var es := Entries(order, counts);
    var sorted := SortDesc(es);
    SortedEntries(order, counts);
    forall e | e in MostCommon(order, counts, n) ensures e.query in order && e.count == counts[e.query] {
      assert e in multiset(sorted);
      assert e in multiset(es);
      var i :| 0 <= i < |es| && es[i] == e;
    }
  }

  /** No query left out of the list has a larger count than a listed one. */
  lemma MostCommonIsTop(order: seq<string>, counts: map<string, nat>, n: nat, q: string)
    requires forall q :: q in order ==> q in counts
    requires q in order && forall e :: e in MostCommon(order, counts, n) ==> e.query != q
    ensures forall e :: e in MostCommon(order, counts, n) ==> counts[q] <= e.count
  {
    var es := Entries(order, counts);
    var sorted := SortDesc(es);
    var top := MostCommon(order, counts, n);
    SortedEntries(order, counts);
    var i :| 0 <= i < |order| && order[i] == q;
    var entry := Entry(q, counts[q]);
    assert es[i] == entry;
    assert entry in multiset(sorted);
    var j :| 0 <= j < |sorted| && sorted[j] == entry;
    assert entry !in top;
    assert j >= |top|;
    forall e | e in top ensures counts[q] <= e.count {
      var k :| 0 <= k < |top| && top[k] == e;
      assert sorted[k] == e;
    }
  }

  /**
   * Lines 251-256: `/trending` lists at most ten entries, each with the
   * count the counter holds for its query, with counts never rising, and
   * no query left out has a larger count than one listed.
   */
  lemma MostCommonSpec(order: seq<string>, counts: map<string, nat>, n: nat)
    requires forall q :: q in order ==> q in counts
    ensures |MostCommon(order, counts, n)| == if n < |order| then n else |order|
    ensures NonIncreasing(MostCommon(order, counts, n))
    ensures forall e :: e in MostCommon(order, counts, n) ==> e.query in order && e.count == counts[e.query]
    ensures forall q :: q in order && (forall e :: e in MostCommon(order, counts, n) ==> e.query != q) ==>
              forall e :: e in MostCommon(order, counts, n) ==> counts[q] <= e.count
  {
    SortedEntries(order, counts);
    MostCommonCounts(order, counts, n);
    forall q | q in order && (forall e :: e in MostCommon(order, counts, n) ==> e.query != q)
      ensures forall e :: e in MostCommon(order, counts, n) ==> counts[q] <= e.count
    {
      MostCommonIsTop(order, counts, n, q);
    }
  }

  /** The entries counted exactly `c` times, in their order. */
  function WithCount(es: seq<Entry>, c: nat): seq<Entry> {
    if es == [] then [] else (if es[0].count == c then [es[0]] else []) + WithCount(es[1..], c)
  }

  lemma {:induction false} WithCountAppend(a: seq<Entry>, b: seq<Entry>, c: nat)
    ensures WithCount(a + b, c) == WithCount(a, c) + WithCount(b, c)
    decreases |a|
  {
    if a == [] {
      assert a + b == b;
    } else {
      assert (a + b)[0] == a[0] && (a + b)[1..] == a[1..] + b;
      WithCountAppend(a[1..], b, c);
    }
  }

  lemma {:induction false} WithCountNone(es: seq<Entry>, c: nat)
    requires forall i :: 0 <= i < |es| ==> es[i].count != c
    ensures WithCount(es, c) == []
    decreases |es|
  {
    if es != [] {
      WithCountNone(es[1..], c);
    }
  }

  /** Inserting into a sorted list puts the new entry after every entry of the same count. */
  lemma {:induction false} InsertDescStable(sorted: seq<Entry>, e: Entry, c: nat)
    requires NonIncreasing(sorted)
    ensures WithCount(InsertDesc(sorted, e), c) == WithCount(sorted, c) + WithCount([e], c)
    decreases |sorted|
  {
    if sorted == [] {
    } else if sorted[0].count >= e.count {
      var tail := sorted[1..];
      assert NonIncreasing(tail) by {
        forall i, j | 0 <= i < j < |tail| ensures tail[i].count >= tail[j].count {
          assert tail[i] == sorted[i + 1] && tail[j] == sorted[j + 1];
        }
      }
      InsertDescStable(tail, e, c);
      assert ([sorted[0]] + InsertDesc(tail, e))[1..] == InsertDesc(tail, e);
    } else if e.count == c {
      WithCountNone(sorted, c);
      assert ([e] + sorted)[1..] == sorted;
    } else {
      assert ([e] + sorted)[1..] == sorted;
    }
  }

  /**
   * The sort is stable: the entries of any one count come out in the order
   * they went in, so among equal counts the query counted first comes first.
   */
  lemma {:induction false} SortDescStable(es: seq<Entry>, c: nat)
    ensures WithCount(SortDesc(es), c) == WithCount(es, c)
    decreases |es|
  {
    if es != [] {
      var init, last := es[..|es| - 1], es[|es| - 1];
      assert SortDesc(es) == InsertDesc(SortDesc(init), last);
      SortDescStable(init, c);
      SortDescSpec(init);
      InsertDescStable(SortDesc(init), last, c);
      WithCountAppend(init, [last], c);
      assert es == init + [last];
    }
  }

  /** Among equal counts, `most_common` lists the queries in the order they were first counted. */
  lemma MostCommonStable(order: seq<string>, counts: map<string, nat>, n: nat, c: nat)
    requires forall q :: q in order ==> q in counts
    ensures WithCount(MostCommon(order, counts, n), c) <= WithCount(Entries(order, counts), c)
  {
    var sorted := SortDesc(Entries(order, counts));
    var top := MostCommon(order, counts, n);
    SortDescStable(Entries(order, counts), c);
    assert sorted == top + sorted[|top|..];
    WithCountAppend(top, sorted[|top|..], c);
  }

  /** `counter[q] += 1` on the counts: `q` gains one, every other query keeps its count. */
  function Increment(counts: map<string, nat>, q: string): (r: map<string, nat>)
    ensures r.Keys == counts.Keys + {q}
    ensures r[q] == (if q in counts then counts[q] else 0) + 1
    ensures forall k :: k in counts && k != q ==> r[k] == counts[k]
  {
    counts[q := (if q in counts then counts[q] else 0) + 1]
  }

  /** `trending_searches` (line 26): the counts of a Counter and the order its keys were first inserted in. */
  class SearchCounter {
    var order: seq<string>
    var counts: map<string, nat>

    ghost predicate Valid()
      reads this
    {
      && (forall q :: q in counts <==> q in order)
      && Distinct(order)
      && (forall q :: q in counts ==> counts[q] >= 1)
    }

    constructor()
      ensures Valid() && order == [] && counts == map[]
    {
      order := [];
      counts := map[];
    }

    /** `counter[q]`: 0 for a query never counted. */
    function Count(q: string): nat
      reads this
    {
      if q in counts then counts[q] else 0
    }

    /** Lines 111 and 229: `trending_searches[q] += 1`; a new query goes last. */
    method Add(q: string)
      requires Valid()
      modifies this
      ensures Valid()
      ensures counts == Increment(old(counts), q)
      ensures order == if q in old(counts) then old(order) else old(order) + [q]
    {
      if q !in counts {
        order := order + [q];
        counts := counts[q := 1];
      } else {
        counts := counts[q := counts[q] + 1];
      }
    }

    /** Lines 251-252: `most_common(10)`: each entry with the count the counter holds. */
    function Top(n: nat): (r: seq<Entry>)
      reads this
      requires Valid()
      ensures |r| == if n < |order| then n else |order|
      ensures forall e :: e in r ==> e.query in counts && e.count == Count(e.query)
    {
      MostCommonCounts(order, counts, n);
      MostCommon(order, counts, n)
    }
  }
}
