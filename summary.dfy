/**
 The totals that `printFreq` accumulates while it walks the ranked list,
 and the whole pipeline from decoded text to ranked list and totals.
 Printing is not modelled: the lines would show exactly the records and
 the two totals returned here.
 */
module Summary {
  import opened FreqMaps
  import opened Counter
  import opened Ranker

  /** The sum of the counts of a list of records, added from the front. */
  function SumFreq(f: seq<Freq>): (total: int)
  {
    if f == [] then 0 else SumFreq(f[..|f| - 1]) + f[|f| - 1].freq
  }

  /** Summing the counts of any listing of a map's entries gives the sum of the map's values. */
  lemma {:induction false} SumOfPermutation(f: seq<Freq>, m: FreqMap)
    requires IsPermutationOfEntries(f, m)
    ensures SumFreq(f) == MapSum(m)
    decreases |f|
  {
    if f == [] {
      EntriesCard(m);
      assert |multiset(Entries(m))| == 0;
      assert |m| == 0;
    } else {
      var init, e := f[..|f| - 1], f[|f| - 1];
      assert f == init + [e];
      assert e in multiset(f);
      EntriesMember(m, e);
      var k := e.ch;
      EntriesBagRemove(m, k);
      assert multiset(f) == multiset(init) + multiset{e};
      assert e == Freq(k, m[k]);
      assert multiset(init) == multiset(f) - multiset{e};
      assert multiset(Entries(m - {k})) == multiset(Entries(m)) - multiset{e};
      assert (m - {k}).Keys == m.Keys - {k};
      SumOfPermutation(init, m - {k});
      MapSumRemove(m, k);
    }
  }

  /**
   The loop of `printFreq`: `uniqueC` counts the records and `totalC`
   adds up their counts.
   */
  method Totals(f: seq<Freq>) returns (uniqueC: int, totalC: int)
    ensures uniqueC == |f|
    ensures totalC == SumFreq(f)
  {
    uniqueC, totalC := 0, 0;
    for i := 0 to |f|
      invariant uniqueC == i
      invariant totalC == SumFreq(f[..i])
    {
      assert f[..i + 1][..i] == f[..i];
      totalC := totalC + f[i].freq;
      uniqueC := uniqueC + 1;
    }
    assert f[..|f|] == f;
  }

  /**
   `printFreq` without the printing: ranks the map, then totals the ranked
   records. The unique count is the number of keys and the total is the
   sum of the map's values.
   */
  method PrintFreq(m: FreqMap) returns (ranked: seq<Freq>, uniqueC: int, totalC: int)
    ensures IsRanking(ranked, m)
    ensures uniqueC == |m|
    ensures totalC == MapSum(m)
  {
    ranked := SortFreq(m);
    uniqueC, totalC := Totals(ranked);
    SumOfPermutation(ranked, m);
  }

  /**
   The program on already decoded text: count, then rank and total. The
   unique count is the number of distinct code points and the total is the
   number of code points.
   */
  method FreqReport(s: seq<char>) returns (ranked: seq<Freq>, uniqueC: int, totalC: int)
    ensures IsRanking(ranked, Counts(s))
    ensures uniqueC == |set c | c in s|
    ensures totalC == |s|
  {
    var m := CountFreq(s);
    ranked, uniqueC, totalC := PrintFreq(m);
    CountsKeys(s);
    CountsSum(s);
  }
}
