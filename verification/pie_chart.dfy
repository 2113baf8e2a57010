/** The data behind the pie chart of circulating supply by chain
    (`chainsCirculatingValues` in src/containers/PeggedContainer/index.tsx).

    The chain totals are turned into `{name, value}` slices; the FIRST ten in
    input order are sorted by value, largest first, and everything from the
    eleventh chain on is summed into one trailing "Others" slice. Truncation
    happens before sorting, so the named slices are the global top ten only
    when the totals already arrive largest first (`SortedTotalsGiveTopTen`);
    `TruncationPrecedesSorting` exhibits an input where they are not. */
module PieChart {
  import opened Sorting

  /** One chain's circulating total, as the totals hook hands it over. */
  datatype ChainTotal = ChainTotal(name: string, circulating: int)

  /** One slice of the pie chart. */
  datatype Slice = Slice(name: string, value: int)

  /** How many chains get a slice of their own. */
  const NamedSlices: nat := 10

  /** The name of the slice that collects every other chain. */
  const OthersName: string := "Others"

  function Min(a: nat, b: nat): nat {
    if a <= b then a else b
  }

  function Circulating(c: ChainTotal): int {
    c.circulating
  }

  function SliceValue(e: Slice): int {
    e.value
  }

  /** The sort key of the comparator `(a, b) => b.value - a.value`: larger
      values come first. */
  function Descending(e: Slice): int {
    -e.value
  }

  /** Values never increase from left to right. */
  ghost predicate NonIncreasing(s: seq<Slice>) {
    forall i, j :: 0 <= i < j < |s| ==> s[i].value >= s[j].value
  }

  /** The slice of each chain, position for position. */
  function Slices(totals: seq<ChainTotal>): (r: seq<Slice>)
    ensures |r| == |totals|
    ensures forall i :: 0 <= i < |r| ==> r[i] == Slice(totals[i].name, totals[i].circulating)
  {
    seq(|totals|, i requires 0 <= i < |totals| => Slice(totals[i].name, totals[i].circulating))
  }

  /** How many chains get a named slice. */
  function Cut(totals: seq<ChainTotal>): (c: nat)
    ensures c <= |totals| && c <= NamedSlices
  {
    Min(|totals|, NamedSlices)
  }

  /** The named slices: the first ten chains, largest value first, chains
      with equal values in their input order. */
  function NamedPart(totals: seq<ChainTotal>): (r: seq<Slice>)
    ensures |r| == Cut(totals)
    ensures NonIncreasing(r)
    ensures multiset(r) == multiset(Slices(totals)[..Cut(totals)])
    ensures SameKeyOrder(r, Slices(totals)[..Cut(totals)], Descending)
  {
    var r := SortBy(Slices(totals)[..Cut(totals)], Descending);
    SortIsStable(Slices(totals)[..Cut(totals)], Descending);
    assert NonIncreasing(r) by {
      forall i, j | 0 <= i < j < |r| ensures r[i].value >= r[j].value {
        assert Descending(r[i]) <= Descending(r[j]);
      }
    }
    r
  }

  /** The pie chart's data: the named slices followed by "Others", which
      holds the sum of the circulating totals from the eleventh chain on. */
  function PieData(totals: seq<ChainTotal>): (r: seq<Slice>)
    ensures |r| == Min(|totals|, NamedSlices) + 1
    ensures |r| <= NamedSlices + 1
    ensures r[..|r| - 1] == NamedPart(totals)
    ensures NonIncreasing(r[..|r| - 1])
    ensures multiset(r[..|r| - 1]) == multiset(Slices(totals[..Cut(totals)]))
    ensures r[|r| - 1] == Slice(OthersName, SumBy(totals[Cut(totals)..], Circulating))
    ensures |totals| <= NamedSlices ==> r[|r| - 1].value == 0
  {
    var data := Slices(totals);
    var cut := Cut(totals);
    var other := SumBy(data[cut..], SliceValue);
    SlicesSum(totals[cut..]);
    assert Slices(totals[cut..]) == data[cut..];
    assert Slices(totals[..cut]) == data[..cut];
    NamedPart(totals) + [Slice(OthersName, other)]
  }

  lemma {:induction false} SlicesSum(totals: seq<ChainTotal>)
    ensures SumBy(Slices(totals), SliceValue) == SumBy(totals, Circulating)
  {
    if |totals| > 0 {
      SlicesSum(totals[1..]);
      assert Slices(totals)[1..] == Slices(totals[1..]);
    }
  }

  /** Descending order and stability pin the named slices down completely:
      any descending arrangement of the first ten chains that keeps equal
      values in input order is the one `PieData` produces. */
  lemma PieNamedIsStableSort(totals: seq<ChainTotal>, q: seq<Slice>)
    requires NonIncreasing(q)
    requires SameKeyOrder(q, Slices(totals)[..Cut(totals)], Descending)
    ensures q == PieData(totals)[..Cut(totals)]
  {
    var first := Slices(totals)[..Cut(totals)];
    SortIsStable(first, Descending);
    var named := NamedPart(totals);
    forall k ensures WithKey(q, Descending, k) == WithKey(named, Descending, k) {
      assert WithKey(q, Descending, k) == WithKey(first, Descending, k);
      assert WithKey(named, Descending, k) == WithKey(first, Descending, k);
    }
    assert SortedBy(q, Descending);
    StableSortIsUnique(q, named, Descending);
  }

  /** The chart shows all circulating supply: the slices add up to the sum
      of every chain's total. */
  lemma PieConservesTotal(totals: seq<ChainTotal>)
    ensures SumBy(PieData(totals), SliceValue) == SumBy(totals, Circulating)
  {
    var r := PieData(totals);
    var cut := Cut(totals);
    var first := Slices(totals)[..cut];
    SumByAppend(r[..|r| - 1], [r[|r| - 1]], SliceValue);
    assert r == r[..|r| - 1] + [r[|r| - 1]];
    SortKeepsSum(first, Descending, SliceValue);
    SlicesSum(totals[..cut]);
    assert Slices(totals[..cut]) == first;
    SumByAppend(totals[..cut], totals[cut..], Circulating);
    assert totals == totals[..cut] + totals[cut..];
  }

  /** When the totals already arrive in non-increasing order, nothing is
      reordered and the named slices are the global top ten: none of the
      chains folded into "Others" is larger than a named one. */
  lemma SortedTotalsGiveTopTen(totals: seq<ChainTotal>)
    requires forall i, j :: 0 <= i < j < |totals| ==> totals[i].circulating >= totals[j].circulating
    ensures PieData(totals)[..Cut(totals)] == Slices(totals)[..Cut(totals)]
    ensures forall i, j :: 0 <= i < Cut(totals) <= j < |totals| ==>
              PieData(totals)[i].value >= totals[j].circulating
  {
    var first := Slices(totals)[..Cut(totals)];
    assert SortedBy(first, Descending);
    SortOfSortedIsIdentity(first, Descending);
  }

  /** Truncating before sorting loses the largest chain when it comes
      eleventh: ten chains of value 0 followed by one of value 5 give ten
      named slices of value 0 and an "Others" slice of 5. */
  lemma TruncationPrecedesSorting()
    ensures var totals := seq(10, i => ChainTotal("small", 0)) + [ChainTotal("large", 5)];
      var r := PieData(totals);
      |r| == 11 &&
      (forall i :: 0 <= i < 10 ==> r[i] == Slice("small", 0)) &&
      r[10] == Slice(OthersName, 5)
  {
    var totals := seq(10, i => ChainTotal("small", 0)) + [ChainTotal("large", 5)];
    var r := PieData(totals);
    var first := Slices(totals)[..10];
    assert |totals| == 11 && Cut(totals) == 10;
    assert totals[10..] == [ChainTotal("large", 5)];
    assert SumBy(totals[10..], Circulating) == 5 by {
      assert totals[10..][1..] == [];
    }
    forall i | 0 <= i < 10 ensures r[i] == Slice("small", 0) {
      assert r[..10] == NamedPart(totals);
      assert r[i] in multiset(first);
      assert forall j :: 0 <= j < 10 ==> first[j] == Slice("small", 0);
    }
  }
}
