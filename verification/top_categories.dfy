/** The top-N selection of category totals used by the transaction service's analytics: the entries of
    a category-to-total map, sorted by total from largest to smallest, the first `limit` of them kept.
    Totals are whole numbers here (the source holds them as doubles); the map's entries arrive as a
    sequence in the map's iteration order.
 */
module CategoryRanking {
  import opened Wrappers

  /** One map entry: a category and its total. */
  datatype Entry = Entry(category: string, total: int)

  predicate SortedDesc(s: seq<Entry>)
  {
    forall i, j :: 0 <= i < j < |s| ==> s[i].total >= s[j].total
  }

  /** An entry at least as large as the head of a descending sequence can go in front of it. */
  lemma ConsSorted(x: Entry, s: seq<Entry>)
    requires SortedDesc(s) && (s != [] ==> s[0].total <= x.total)
    ensures SortedDesc([x] + s)
  {
    assert forall j :: 0 <= j < |s| ==> s[j].total <= s[0].total;
  }

  /** Inserts `e` into a sorted sequence, after every entry whose total is at least `e`'s, which keeps
      equal totals in arrival order. */
  function Insert(e: Entry, s: seq<Entry>): (r: seq<Entry>)
    requires SortedDesc(s)
    ensures |r| == |s| + 1
    ensures r[0] == e || (s != [] && r[0] == s[0])
    ensures SortedDesc(r)
    ensures multiset(r) == multiset(s) + multiset{e}
  {
    if s == [] then [e]
    else if s[0].total >= e.total then
      assert s == [s[0]] + s[1..];
      var rest := Insert(e, s[1..]);
      ConsSorted(s[0], rest);
      [s[0]] + rest
    else
      ConsSorted(e, s);
      [e] + s
  }

  /** `sorted(comparingByValue().reversed())`: a stable sort by descending total. */
  function SortByTotalDesc(s: seq<Entry>): (r: seq<Entry>)
    ensures |r| == |s|
    ensures SortedDesc(r)
    ensures multiset(r) == multiset(s)
  {
    if s == [] then []
    else
      assert s == s[..|s| - 1] + [s[|s| - 1]];
      Insert(s[|s| - 1], SortByTotalDesc(s[..|s| - 1]))
  }

  /** `getTopCategories`: the `limit` largest entries, largest first. A negative limit makes the stream
      throw IllegalArgumentException. */
  function TopCategories(entries: seq<Entry>, limit: int): (r: Result<seq<Entry>, string>)
    ensures r.Failure? <==> limit < 0
    ensures r.Success? ==> |r.value| == if limit < |entries| then limit else |entries|
    ensures r.Success? ==> SortedDesc(r.value)
    ensures r.Success? ==> multiset(r.value) <= multiset(entries)
  {
    if limit < 0 then Failure("IllegalArgumentException")
    else
      var sorted := SortByTotalDesc(entries);
      var k := if limit < |sorted| then limit else |sorted|;
      assert sorted == sorted[..k] + sorted[k..];
      Success(sorted[..k])
  }

  /** In a descending sequence, everything after position `k` is at most everything before it. */
  lemma SortedSplit(sorted: seq<Entry>, k: nat)
    requires SortedDesc(sorted) && k <= |sorted|
    ensures forall x, y :: x in sorted[k..] && y in sorted[..k] ==> x.total <= y.total
  {
    forall x, y | x in sorted[k..] && y in sorted[..k]
      ensures x.total <= y.total
    {
      var i :| 0 <= i < |sorted[k..]| && sorted[k..][i] == x;
      var j :| 0 <= j < k && sorted[..k][j] == y;
      assert sorted[k + i] == x && sorted[j] == y;
    }
  }

  /** The entries that a split leaves out are, as a multiset, the whole minus the part kept. */
  lemma MultisetSplit(all: seq<Entry>, sorted: seq<Entry>, k: nat)
    requires multiset(sorted) == multiset(all) && k <= |sorted|
    ensures multiset(all) - multiset(sorted[..k]) == multiset(sorted[k..])
  {
    assert sorted == sorted[..k] + sorted[k..];
  }

  /** No entry left out has a larger total than an entry kept. */
  lemma TopCategoriesKeepsLargest(entries: seq<Entry>, limit: int)
    requires limit >= 0
    ensures forall x, y :: x in multiset(entries) - multiset(TopCategories(entries, limit).value) && y in TopCategories(entries, limit).value
              ==> x.total <= y.total
  {
    var sorted := SortByTotalDesc(entries);
    var k := if limit < |sorted| then limit else |sorted|;
    assert TopCategories(entries, limit).value == sorted[..k];
    MultisetSplit(entries, sorted, k);
    SortedSplit(sorted, k);
  }

  /** With a limit at least the number of entries, every entry is returned. */
  lemma LargeLimitKeepsAll(entries: seq<Entry>, limit: int)
    requires limit >= |entries|
    ensures multiset(TopCategories(entries, limit).value) == multiset(entries)
  {
    var sorted := SortByTotalDesc(entries);
    assert sorted[..|sorted|] == sorted;
  }
}
