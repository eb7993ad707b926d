/**
 The ranker, `sortFreq`: copies every entry of a frequency map into a list
 of `freq` records, then sorts that list in place by count, largest first.
 Nothing is promised about the order of characters with equal counts.
 */
module Ranker {
  import opened FreqMaps

  /** Counts never increase from the front of the list to its end. */
  predicate NonIncreasing(f: seq<Freq>)
  {
    forall i, j | 0 <= i < j < |f| :: f[i].freq >= f[j].freq
  }

  /** `f` holds the records of `m`'s entries, each exactly once, in some order. */
  ghost predicate IsPermutationOfEntries(f: seq<Freq>, m: FreqMap)
  {
    multiset(f) == multiset(Entries(m))
  }

  /** A ranking of `m`: its entries, each once, by non-increasing count. */
  ghost predicate IsRanking(f: seq<Freq>, m: FreqMap)
  {
    IsPermutationOfEntries(f, m) && NonIncreasing(f)
  }

  /**
   What a permutation of the entries amounts to: one record per key, with
   the key and its value copied unchanged, and no key listed twice.
   */
  lemma PermutationListsEachKeyOnce(f: seq<Freq>, m: FreqMap)
    requires IsPermutationOfEntries(f, m)
    ensures |f| == |m|
    ensures forall i | 0 <= i < |f| :: f[i].ch in m && f[i].freq == m[f[i].ch]
    ensures forall c | c in m :: exists i :: 0 <= i < |f| && f[i] == Freq(c, m[c])
    ensures forall i, j | 0 <= i < j < |f| :: f[i].ch != f[j].ch
  {
    EntriesCard(m);
    assert |multiset(f)| == |f|;
    forall i | 0 <= i < |f|
      ensures f[i].ch in m && f[i].freq == m[f[i].ch]
    {
      assert f[i] in multiset(f);
      EntriesMember(m, f[i]);
    }
    forall c | c in m
      ensures exists i :: 0 <= i < |f| && f[i] == Freq(c, m[c])
    {
      EntriesMember(m, Freq(c, m[c]));
      assert Freq(c, m[c]) in multiset(f);
    }
    forall i, j | 0 <= i < j < |f|
      ensures f[i].ch != f[j].ch
    {
      MultiplicityOfRepeat(f, i, j);
      EntriesMember(m, f[i]);
      EntriesMember(m, f[j]);
    }
  }

  /** A record found at two positions is counted at least twice in the list's multiset. */
  lemma MultiplicityOfRepeat(f: seq<Freq>, i: nat, j: nat)
    requires i < j < |f|
    ensures multiset(f)[f[i]] >= if f[i] == f[j] then 2 else 1
  {
    assert f == f[..j] + f[j..];
    assert f[i] in multiset(f[..j]);
    assert f[j] in multiset(f[j..]);
  }

  /** One step of the collecting loop: moving key `k`'s record from the map still to walk into the list. */
  lemma CollectStep(done: seq<Freq>, rest: FreqMap, m: FreqMap, k: char)
    requires k in rest
    requires multiset(done) + multiset(Entries(rest)) == multiset(Entries(m))
    ensures multiset(done + [Freq(k, rest[k])]) + multiset(Entries(rest - {k})) == multiset(Entries(m))
    ensures |rest - {k}| == |rest| - 1
  {
    EntriesBagRemove(rest, k);
    assert (rest - {k}).Keys == rest.Keys - {k};
  }

  /**
   The first loop of `sortFreq`: one record per map entry, in whatever
   order the map is walked.
   */
  method CollectEntries(m: FreqMap) returns (a: array<Freq>)
    ensures fresh(a)
    ensures a.Length == |m|
    ensures IsPermutationOfEntries(a[..], m)
  {
    a := new Freq[|m|];
    var rest := m;
    var i := 0;
    while rest != map[]
      invariant 0 <= i <= a.Length
      invariant i + |rest| == a.Length
      invariant multiset(a[..i]) + multiset(Entries(rest)) == multiset(Entries(m))
      decreases |rest|
    {
      var k :| k in rest;
      CollectStep(a[..i], rest, m, k);
      a[i] := Freq(k, rest[k]);
      assert a[..i + 1] == a[..i] + [a[i]];
      rest := rest - {k};
      i := i + 1;
    }
    assert a[..] == a[..i];
  }

  /**
   The in-place sort of `sortFreq`, by count, largest first. Go's
   `sort.Slice` is not stable and neither is its order among equal counts
   promised here: only that the records are the same and in order.
   */
  method SortByFreqDescending(a: array<Freq>)
    modifies a
    ensures NonIncreasing(a[..])
    ensures multiset(a[..]) == old(multiset(a[..]))
  {
    for i := 0 to a.Length
      invariant NonIncreasing(a[..i])
      invariant multiset(a[..]) == old(multiset(a[..]))
    {
      InsertDescending(a, i);
    }
  }

  /**
   One pass of the sort: the record at `i` moves left past every record
   with a smaller count, so the sorted prefix grows by one.
   */
  method InsertDescending(a: array<Freq>, i: nat)
    requires i < a.Length
    requires NonIncreasing(a[..i])
    modifies a
    ensures NonIncreasing(a[..i + 1])
    ensures forall k | i < k < a.Length :: a[k] == old(a[k])
    ensures multiset(a[..]) == old(multiset(a[..]))
  {
    var j := i;
    while j > 0 && a[j - 1].freq < a[j].freq
      invariant 0 <= j <= i
      invariant forall p, q | 0 <= p < q <= i && p != j && q != j :: a[p].freq >= a[q].freq
      invariant forall q | j < q <= i :: a[j].freq > a[q].freq
      invariant forall k | i < k < a.Length :: a[k] == old(a[k])
      invariant multiset(a[..]) == old(multiset(a[..]))
    {
      SwapWithPrevious(a, j);
      j := j - 1;
    }
  }

  /** Exchanges the record at `j` with the one before it; nothing else moves. */
  method SwapWithPrevious(a: array<Freq>, j: nat)
    requires 0 < j < a.Length
    modifies a
    ensures a[j - 1] == old(a[j]) && a[j] == old(a[j - 1])
    ensures forall k | 0 <= k < a.Length && k != j - 1 && k != j :: a[k] == old(a[k])
    ensures multiset(a[..]) == old(multiset(a[..]))
  {
    a[j - 1], a[j] := a[j], a[j - 1];
  }

  /**
   `sortFreq`: the records of `m`'s entries, each exactly once, ordered by
   non-increasing count.
   */
  method SortFreq(m: FreqMap) returns (f: seq<Freq>)
    ensures |f| == |m|
    ensures IsPermutationOfEntries(f, m)
    ensures NonIncreasing(f)
  {
    var a := CollectEntries(m);
    SortByFreqDescending(a);
    f := a[..];
  }

  /**
   Two sorted listings of the same records have the same count at every
   position: only the order of characters with equal counts may differ.
   */
  lemma {:induction false} SortedListingsAgreeOnCounts(f: seq<Freq>, g: seq<Freq>)
    requires multiset(f) == multiset(g)
    requires NonIncreasing(f) && NonIncreasing(g)
    ensures |f| == |g|
    ensures forall i | 0 <= i < |f| :: f[i].freq == g[i].freq
    decreases |f|
  {
    assert |multiset(f)| == |f| && |multiset(g)| == |g|;
    if f != [] {
      var j := FrontTie(f, g);
      var h := SwapFront(g, j);
      SwapTiePreservesOrder(g, j);
      var f', h' := f[1..], h[1..];
      DropCommonFront(f, h);
      SortedListingsAgreeOnCounts(f', h');
      forall i | 1 <= i < |f|
        ensures f[i].freq == g[i].freq
      {
        assert f[i] == f'[i - 1] && h[i] == h'[i - 1];
      }
    }
  }

  /** Dropping a common first record keeps two sorted listings sorted and of the same records. */
  lemma DropCommonFront(f: seq<Freq>, h: seq<Freq>)
    requires f != [] && h != [] && f[0] == h[0] && multiset(f) == multiset(h)
    requires NonIncreasing(f) && NonIncreasing(h)
    ensures multiset(f[1..]) == multiset(h[1..])
    ensures NonIncreasing(f[1..]) && NonIncreasing(h[1..])
  {
    DropFront(f);
    DropFront(h);
  }

  /** The rest of a sorted list after its first record: still sorted, and one copy of that record fewer. */
  lemma DropFront(f: seq<Freq>)
    requires f != [] && NonIncreasing(f)
    ensures multiset(f[1..]) == multiset(f) - multiset{f[0]}
    ensures NonIncreasing(f[1..])
  {
    assert f == [f[0]] + f[1..];
  }

  /** Where the first record of one sorted listing sits in another: at a count tied with the other's first. */
  lemma FrontTie(f: seq<Freq>, g: seq<Freq>) returns (j: nat)
    requires multiset(f) == multiset(g) && f != []
    requires NonIncreasing(f) && NonIncreasing(g)
    ensures j < |g| && g[j] == f[0] && g[j].freq == g[0].freq
  {
    assert f[0] in multiset(g);
    j :| 0 <= j < |g| && g[j] == f[0];
    assert g[0] in multiset(f);
    var l :| 0 <= l < |f| && f[l] == g[0];
  }

  /** `g` with its first record and the record at `j` exchanged. */
  function SwapFront(g: seq<Freq>, j: nat): (h: seq<Freq>)
    requires j < |g|
    ensures |h| == |g| && h[0] == g[j] && multiset(h) == multiset(g)
  {
    g[0 := g[j]][j := g[0]]
  }

  /** Exchanging two records with equal counts leaves the counts column, and so the order, as it was. */
  lemma SwapTiePreservesOrder(g: seq<Freq>, j: nat)
    requires j < |g| && g[j].freq == g[0].freq && NonIncreasing(g)
    ensures NonIncreasing(SwapFront(g, j))
    ensures forall p | 0 <= p < |g| :: SwapFront(g, j)[p].freq == g[p].freq
  {
  }

  /** Any two rankings of one map agree on the count at each position. */
  lemma RankingCountsDetermined(f: seq<Freq>, g: seq<Freq>, m: FreqMap)
    requires IsRanking(f, m) && IsRanking(g, m)
    ensures |f| == |g| == |m|
    ensures forall i | 0 <= i < |f| :: f[i].freq == g[i].freq
  {
    PermutationListsEachKeyOnce(f, m);
    SortedListingsAgreeOnCounts(f, g);
  }
}
