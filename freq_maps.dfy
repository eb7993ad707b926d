/**
 The values the frequency counter passes between its stages: the map from
 code point to count that the counter builds, and the `freq` record
 (character, count) that the ranker lists.
 */
module FreqMaps {

  /** A frequency map, Go's `map[rune]int`: each code point seen and its count. */
  type FreqMap = map<char, int>

  /** The `freq` record: one character and the number of times it was seen. */
  datatype Freq = Freq(ch: char, freq: int)

  /** The (key, value) records of a map, one per key. */
  ghost function Entries(m: FreqMap): (es: set<Freq>)
  {
    set c | c in m :: Freq(c, m[c])
  }

  /** The sum of all the values of a map, in no particular key order. */
  ghost function MapSum(m: FreqMap): (total: int)
    decreases |m|
  {
    if m == map[] then 0
    else
      var k :| k in m;
      m[k] + MapSum(m - {k})
  }

  /** Removing one key removes exactly that key's record. */
  lemma EntriesRemove(m: FreqMap, k: char)
    requires k in m
    ensures Entries(m - {k}) == Entries(m) - {Freq(k, m[k])}
    ensures Freq(k, m[k]) in Entries(m)
  {
    forall e | e in Entries(m) - {Freq(k, m[k])}
      ensures e in Entries(m - {k})
    {
      var c :| c in m && e == Freq(c, m[c]);
      assert c != k && c in m - {k} && (m - {k})[c] == m[c];
    }
  }

  /** A record belongs to the entries of a map exactly when the map holds that value at that key. */
  lemma EntriesMember(m: FreqMap, e: Freq)
    ensures e in Entries(m) <==> e.ch in m && m[e.ch] == e.freq
  {
  }

  /** There is one record per key: the entries are as many as the keys. */
  lemma {:induction false} EntriesCard(m: FreqMap)
    ensures |Entries(m)| == |m|
    decreases |m|
  {
    if m != map[] {
      var k :| k in m;
      EntriesRemove(m, k);
      EntriesCard(m - {k});
      assert |m - {k}| == |m| - 1 by {
        assert (m - {k}).Keys == m.Keys - {k};
      }
    }
  }

  /**
   The sum does not depend on which key is taken first: any key's value
   plus the sum of the rest gives the whole sum.
   */
  lemma {:induction false} MapSumRemove(m: FreqMap, k: char)
    requires k in m
    ensures MapSum(m) == m[k] + MapSum(m - {k})
    decreases |m|
  {
    var j :| j in m && MapSum(m) == m[j] + MapSum(m - {j});
    if j != k {
      assert (m - {j}).Keys == m.Keys - {j};
      assert (m - {k}).Keys == m.Keys - {k};
      MapSumRemove(m - {j}, k);
      MapSumRemove(m - {k}, j);
      assert m - {j} - {k} == m - {k} - {j};
    }
  }

  /** Multiset form of EntriesRemove: taking one key's record out of the bag of entries. */
  lemma EntriesBagRemove(m: FreqMap, k: char)
    requires k in m
    ensures multiset(Entries(m)) == multiset(Entries(m - {k})) + multiset{Freq(k, m[k])}
  {
    EntriesRemove(m, k);
    var e := Freq(k, m[k]);
    assert Entries(m) == Entries(m - {k}) + {e};
  }

  /** Setting one key's value: the sum becomes the other keys' sum plus the new value. */
  lemma MapSumUpdate(m: FreqMap, k: char, v: int)
    ensures MapSum(m[k := v]) == MapSum(m - {k}) + v
  {
    MapSumRemove(m[k := v], k);
    assert m[k := v] - {k} == m - {k};
  }
}
