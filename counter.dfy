/**
 The counter, `countFreq`: one pass over the code points of the input,
 incrementing each one's count in a map where a missing key counts as zero.
 The input is the already decoded sequence of code points.
 */
module Counter {
  import opened FreqMaps

  /** How many times `c` occurs in `s`: the reference count, read from the front. */
  function Occurrences(s: seq<char>, c: char): (n: nat)
  {
    if s == [] then 0 else (if s[0] == c then 1 else 0) + Occurrences(s[1..], c)
  }

  /** The reference frequency map: each distinct code point of `s` with its number of occurrences. */
  function Counts(s: seq<char>): (m: FreqMap)
  {
    map c | c in s :: Occurrences(s, c)
  }

  /** Occurrences add up over concatenation. */
  lemma {:induction false} OccurrencesAppend(s: seq<char>, t: seq<char>, c: char)
    ensures Occurrences(s + t, c) == Occurrences(s, c) + Occurrences(t, c)
  {
    if s != [] {
      assert (s + t)[1..] == s[1..] + t;
      OccurrencesAppend(s[1..], t, c);
    } else {
      assert s + t == t;
    }
  }

  /** A code point occurs at least once exactly when it is in the input. */
  lemma {:induction false} OccurrencesPositive(s: seq<char>, c: char)
    ensures Occurrences(s, c) >= 1 <==> c in s
  {
    if s != [] {
      OccurrencesPositive(s[1..], c);
      assert s == [s[0]] + s[1..];
    }
  }

  /** The count agrees with the multiplicity of `c` in the multiset of the input. */
  lemma {:induction false} OccurrencesIsMultiplicity(s: seq<char>, c: char)
    ensures Occurrences(s, c) == multiset(s)[c]
  {
    if s != [] {
      OccurrencesIsMultiplicity(s[1..], c);
      assert s == [s[0]] + s[1..];
    }
  }

  /**
   Reading one more code point `x` changes the map only at `x`, whose count
   goes up by one, starting from zero when `x` had no key yet.
   */
  lemma CountsSnoc(s: seq<char>, x: char)
    ensures Counts(s + [x]) == Counts(s)[x := (if x in Counts(s) then Counts(s)[x] else 0) + 1]
  {
    var before, after := Counts(s), Counts(s + [x]);
    var expected := before[x := (if x in before then before[x] else 0) + 1];
    forall c
      ensures c in after <==> c in expected
      ensures c in after ==> after[c] == expected[c]
    {
      OccurrencesAppend(s, [x], c);
      assert Occurrences([x], c) == if x == c then 1 else 0;
      if c == x && x !in s {
        OccurrencesPositive(s, c);
      }
    }
  }

  /** The map's keys are exactly the distinct code points of the input; the empty input gives the empty map. */
  lemma CountsKeys(s: seq<char>)
    ensures Counts(s).Keys == set c | c in s
    ensures |Counts(s)| == |set c | c in s|
    ensures Counts(s) == map[] <==> s == []
  {
    if s != [] {
      assert s[0] in Counts(s);
    }
  }

  /** Every value is at least one and equals the number of occurrences of its key. */
  lemma CountsValues(s: seq<char>)
    ensures forall c | c in Counts(s) :: Counts(s)[c] == multiset(s)[c] >= 1
  {
    forall c | c in Counts(s)
      ensures Counts(s)[c] == multiset(s)[c] >= 1
    {
      OccurrencesPositive(s, c);
      OccurrencesIsMultiplicity(s, c);
    }
  }

  /** The counts sum to the number of code points in the input. */
  lemma {:induction false} CountsSum(s: seq<char>)
    ensures MapSum(Counts(s)) == |s|
    decreases |s|
  {
    if s != [] {
      var init, x := s[..|s| - 1], s[|s| - 1];
      assert s == init + [x];
      CountsSum(init);
      CountsSnoc(init, x);
      var m := Counts(init);
      var seen := if x in m then m[x] else 0;
      MapSumUpdate(m, x, seen + 1);
      if x in m {
        MapSumRemove(m, x);
      } else {
        assert m - {x} == m;
      }
    }
  }

  /**
   `countFreq`: builds the frequency map of `s` in one pass, incrementing
   the entry of each code point read.
   */
  method CountFreq(s: seq<char>) returns (m: FreqMap)
    ensures m == Counts(s)
    ensures forall c :: c in m <==> c in s
    ensures forall c | c in m :: m[c] == Occurrences(s, c) >= 1
  {
    m := map[];
    for i := 0 to |s|
      invariant m == Counts(s[..i])
    {
      var c := s[i];
      CountsSnoc(s[..i], c);
      assert s[..i + 1] == s[..i] + [c];
      m := m[c := (if c in m then m[c] else 0) + 1];
    }
    assert s[..|s|] == s;
    forall c | c in m
      ensures m[c] >= 1
    {
      OccurrencesPositive(s, c);
    }
  }
}
