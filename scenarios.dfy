/**
 Worked inputs for the whole pipeline: what the counter builds, what every
 ranking of it must be, and the two totals.
 */
module Scenarios {
  import opened FreqMaps
  import opened Counter
  import opened Ranker

  /** "aab": a is seen twice and b once; 2 distinct code points. */
  lemma CountsOfAab()
    ensures Counts("aab") == map['a' := 2, 'b' := 1]
    ensures |set c | c in "aab"| == 2
  {
    var s := "aab";
    assert (set c | c in s) == {'a', 'b'} by {
      assert s[0] == 'a' && s[2] == 'b';
    }
    assert Occurrences(s, 'a') == 2;
    assert Occurrences(s, 'b') == 1;
  }

  /** With distinct counts there is one ranking only: a:2 before b:1. */
  lemma RankingOfAab(ranked: seq<Freq>)
    requires IsRanking(ranked, Counts("aab"))
    ensures ranked == [Freq('a', 2), Freq('b', 1)]
  {
    CountsOfAab();
    var m := map['a' := 2, 'b' := 1];
    PermutationListsEachKeyOnce(ranked, m);
    assert ranked[0].freq >= ranked[1].freq;
  }

  /**
   "AaAa!!", with any three distinct code points for A, a and ! (upper and
   lower case are different code points): each is seen twice.
   */
  lemma CountsOfTies(x: char, y: char, z: char)
    requires x != y && y != z && x != z
    ensures Counts([x, y, x, y, z, z]) == map[x := 2, y := 2, z := 2]
    ensures |set c | c in [x, y, x, y, z, z]| == 3
  {
    var s := [x, y, x, y, z, z];
    assert (set c | c in s) == {x, y, z} by {
      assert s[0] == x && s[1] == y && s[4] == z;
    }
    OccurrencesOfTies(x, y, z);
  }

  /** In "AaAa!!" each of the three code points occurs twice. */
  lemma OccurrencesOfTies(x: char, y: char, z: char)
    requires x != y && y != z && x != z
    ensures Occurrences([x, y, x, y, z, z], x) == 2
    ensures Occurrences([x, y, x, y, z, z], y) == 2
    ensures Occurrences([x, y, x, y, z, z], z) == 2
  {
    var s := [x, y, x, y, z, z];
    OccurrencesIsMultiplicity(s, x);
    OccurrencesIsMultiplicity(s, y);
    OccurrencesIsMultiplicity(s, z);
  }

  /** All three tie at 2, so a ranking may list them in any order, but each exactly once. */
  lemma RankingOfTies(x: char, y: char, z: char, ranked: seq<Freq>)
    requires x != y && y != z && x != z
    requires IsRanking(ranked, Counts([x, y, x, y, z, z]))
    ensures multiset(ranked) == multiset{Freq(x, 2), Freq(y, 2), Freq(z, 2)}
    ensures forall i | 0 <= i < |ranked| :: ranked[i].freq == 2
  {
    CountsOfTies(x, y, z);
    ListingOfThreeTies(x, y, z, ranked);
  }

  /** Any listing of the entries of the map x:2, y:2, z:2 holds each key once, each with count 2. */
  lemma ListingOfThreeTies(x: char, y: char, z: char, ranked: seq<Freq>)
    requires x != y && y != z && x != z
    requires IsPermutationOfEntries(ranked, map[x := 2, y := 2, z := 2])
    ensures multiset(ranked) == multiset{Freq(x, 2), Freq(y, 2), Freq(z, 2)}
    ensures forall i | 0 <= i < |ranked| :: ranked[i].freq == 2
  {
    var m := map[x := 2, y := 2, z := 2];
    var tied := {Freq(x, 2), Freq(y, 2), Freq(z, 2)};
    assert Entries(m) == tied by {
      forall e
        ensures e in Entries(m) <==> e in tied
      {
        EntriesMember(m, e);
      }
    }
    assert multiset(tied) == multiset{Freq(x, 2), Freq(y, 2), Freq(z, 2)};
    forall i | 0 <= i < |ranked|
      ensures ranked[i].freq == 2
    {
      assert ranked[i] in multiset(tied);
    }
  }

  /** The empty input: no keys, so the only ranking is empty. */
  lemma RankingOfEmpty(ranked: seq<Freq>)
    requires IsRanking(ranked, Counts(""))
    ensures Counts("") == map[]
    ensures ranked == []
  {
    PermutationListsEachKeyOnce(ranked, Counts(""));
  }
}
