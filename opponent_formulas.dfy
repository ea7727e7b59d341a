/**
 * The arithmetic of the frequency-based opponent models, per value and per
 * issue: the preference of a value, its weight, the ranking of an issue's
 * values by count and the unnormalized weight of an issue.
 */
module OpponentFormulas {
  import opened SeqUtil

  /** The two concrete opponent models: preferences from ranks (Jonny Black)
      or from frequencies (Agent17). Both weigh issues the same way. */
  datatype Variant = JonnyBlack | Agent17

  /** Jonny Black preference of the value ranked `rank` among `numValues`. */
  function RankPreference(rank: int, numValues: int): real
    requires numValues != 0
  {
    (numValues - rank + 1) as real / numValues as real
  }

  /** Agent17 preference: the share of the bids that chose the value. */
  function FrequencyPreference(count: int, priorBids: int): real
    requires priorBids != 0
  {
    count as real / priorBids as real
  }

  /** Unnormalized weight contributed by a value: the square of its share of the bids. */
  function WeightFormula(count: int, numBids: int): real
    requires numBids != 0
  {
    (count * count) as real / (numBids * numBids) as real
  }

  lemma SquareFacts(x: int)
    ensures x * x >= 0
    ensures x * x == 0 <==> x == 0
  {
    if x < 0 {
      assert x * x == (-x) * (-x);
    }
  }

  lemma RankPreferenceBounds(rank: int, numValues: int)
    requires 1 <= rank <= numValues
    ensures 0.0 < RankPreference(rank, numValues) <= 1.0
    ensures rank == 1 ==> RankPreference(rank, numValues) == 1.0
    ensures rank == numValues ==> RankPreference(rank, numValues) == 1.0 / numValues as real
  {
  }

  /** A better rank (smaller number) means a strictly larger preference. */
  lemma RankPreferenceStrictlyDecreasing(better: int, worse: int, numValues: int)
    requires numValues >= 1
    requires better < worse
    ensures RankPreference(better, numValues) > RankPreference(worse, numValues)
  {
    var n := numValues as real;
    assert (numValues - better + 1) as real > (numValues - worse + 1) as real;
  }

  lemma DivideKeepsOrder(x: real, y: real, d: real)
    requires d > 0.0
    requires x > y
    ensures x / d > y / d
  {
  }

  lemma FrequencyPreferenceBounds(count: int, priorBids: int)
    requires priorBids > 0
    requires 0 <= count <= priorBids
    ensures 0.0 <= FrequencyPreference(count, priorBids) <= 1.0
  {
  }

  lemma RatioFacts(x: real, y: real)
    requires y > 0.0
    ensures x >= 0.0 ==> x / y >= 0.0
    ensures x / y == 0.0 <==> x == 0.0
    ensures x <= y ==> x / y <= 1.0
  {
  }

  /** A number no larger in magnitude has a square no larger. */
  lemma SquareMonotone(x: int, y: int)
    requires -y <= x <= y
    ensures x * x <= y * y
  {
    var a := if x < 0 then -x else x;
    assert a * a == x * x;
    assert a * a <= y * a;
    assert y * a <= y * y;
  }

  lemma WeightFormulaBounds(count: int, numBids: int)
    requires numBids != 0
    ensures WeightFormula(count, numBids) >= 0.0
    ensures WeightFormula(count, numBids) == 0.0 <==> count == 0
    ensures -numBids <= count <= numBids || numBids <= count <= -numBids ==> WeightFormula(count, numBids) <= 1.0
  {
    SquareFacts(count);
    SquareFacts(numBids);
    var cc, bb := count * count, numBids * numBids;
    if -numBids <= count <= numBids {
      SquareMonotone(count, numBids);
    } else if numBids <= count <= -numBids {
      SquareMonotone(count, -numBids);
      assert (-numBids) * (-numBids) == bb;
    }
    RatioFacts(cc as real, bb as real);
    assert WeightFormula(count, numBids) == cc as real / bb as real;
  }

  /** The count recorded for a value; a value never counted has count 0. */
  function CountOf(counts: map<string, int>, v: string): int
  {
    if v in counts then counts[v] else 0
  }

  /** Non-increasing by count, as the descending comparator of the value sort orders them. */
  ghost predicate DescendingByCount(s: seq<string>, counts: map<string, int>)
  {
    forall i, j :: 0 <= i < j < |s| ==> CountOf(counts, s[i]) >= CountOf(counts, s[j])
  }

  /** Insert `v` behind every value whose count is at least its own. */
  function InsertByCount(v: string, sorted: seq<string>, counts: map<string, int>): seq<string>
  {
    if sorted == [] then [v]
    else if CountOf(counts, sorted[0]) >= CountOf(counts, v) then [sorted[0]] + InsertByCount(v, sorted[1..], counts)
    else [v] + sorted
  }

  lemma {:induction false} InsertByCountPermutes(v: string, sorted: seq<string>, counts: map<string, int>)
    ensures multiset(InsertByCount(v, sorted, counts)) == multiset(sorted) + multiset{v}
    decreases |sorted|
  {
    if sorted != [] && CountOf(counts, sorted[0]) >= CountOf(counts, v) {
      InsertByCountPermutes(v, sorted[1..], counts);
      assert sorted == [sorted[0]] + sorted[1..];
    }
  }

  lemma {:induction false} InsertKeepsDescending(v: string, sorted: seq<string>, counts: map<string, int>)
    requires DescendingByCount(sorted, counts)
    ensures DescendingByCount(InsertByCount(v, sorted, counts), counts)
    decreases |sorted|
  {
    if sorted != [] && CountOf(counts, sorted[0]) >= CountOf(counts, v) {
      var tail := sorted[1..];
      var rest := InsertByCount(v, tail, counts);
      InsertKeepsDescending(v, tail, counts);
      InsertByCountPermutes(v, tail, counts);
      HeadDominates(sorted, counts);
      forall k | 0 <= k < |rest|
        ensures CountOf(counts, sorted[0]) >= CountOf(counts, rest[k])
      {
        assert rest[k] in multiset(rest);
        assert rest[k] == v || rest[k] in multiset(tail);
      }
      PrependKeepsDescending(sorted[0], rest, counts);
    }
  }

  lemma HeadDominates(s: seq<string>, counts: map<string, int>)
    requires DescendingByCount(s, counts)
    requires s != []
    ensures forall x :: x in s[1..] ==> CountOf(counts, s[0]) >= CountOf(counts, x)
  {
    forall x | x in s[1..] ensures CountOf(counts, s[0]) >= CountOf(counts, x) {
      var m :| 0 <= m < |s[1..]| && s[1..][m] == x;
      assert s[m + 1] == x;
    }
  }

  lemma PrependKeepsDescending(x: string, s: seq<string>, counts: map<string, int>)
    requires DescendingByCount(s, counts)
    requires forall k :: 0 <= k < |s| ==> CountOf(counts, x) >= CountOf(counts, s[k])
    ensures DescendingByCount([x] + s, counts)
  {
    var r := [x] + s;
    forall i, j | 0 <= i < j < |r|
      ensures CountOf(counts, r[i]) >= CountOf(counts, r[j])
    {
      assert r[j] == s[j - 1];
      if i > 0 {
        assert r[i] == s[i - 1];
      }
    }
  }

  /** The values of an issue sorted descending by count; equal counts keep
      their iteration order. */
  function SortByCount(values: seq<string>, counts: map<string, int>): seq<string>
  {
    if values == [] then []
    else InsertByCount(values[|values| - 1], SortByCount(values[..|values| - 1], counts), counts)
  }

  /** The sorted values are a permutation of the values. */
  lemma {:induction false} SortByCountPermutes(values: seq<string>, counts: map<string, int>)
    ensures multiset(SortByCount(values, counts)) == multiset(values)
    decreases |values|
  {
    if values != [] {
      var front := values[..|values| - 1];
      SortByCountPermutes(front, counts);
      InsertByCountPermutes(values[|values| - 1], SortByCount(front, counts), counts);
      assert values == front + [values[|values| - 1]];
    }
  }

  /** The sorted values are non-increasing by count. */
  lemma {:induction false} SortByCountDescending(values: seq<string>, counts: map<string, int>)
    ensures DescendingByCount(SortByCount(values, counts), counts)
    decreases |values|
  {
    if values != [] {
      var front := values[..|values| - 1];
      SortByCountDescending(front, counts);
      InsertKeepsDescending(values[|values| - 1], SortByCount(front, counts), counts);
    }
  }

  /** Position of the first occurrence of `x` in `s`. */
  function IndexOf<T(==)>(s: seq<T>, x: T): (i: nat)
    requires x in s
    ensures i < |s| && s[i] == x
    ensures forall j :: 0 <= j < i ==> s[j] != x
  {
    if s[0] == x then 0 else 1 + IndexOf(s[1..], x)
  }

  lemma DistinctIndexOf<T>(s: seq<T>, k: nat)
    requires NoDuplicates(s)
    requires k < |s|
    ensures IndexOf(s, s[k]) == k
  {
  }

  lemma PermutationKeepsDistinct<T>(s: seq<T>, t: seq<T>)
    requires multiset(s) == multiset(t)
    requires NoDuplicates(s)
    ensures NoDuplicates(t)
  {
    forall i, j | 0 <= i < j < |t| ensures t[i] != t[j] {
      if t[i] == t[j] {
        var x := t[i];
        assert multiset(t)[x] >= 2 by {
          var u := t[..j];
          assert t == u + t[j..];
          assert x in u by { assert u[i] == x; }
          assert multiset(t) == multiset(u) + multiset(t[j..]);
          assert x in t[j..];
        }
        MultiplicityOfDistinct(s, x);
      }
    }
  }

  /** Rank of `v` among the values of an issue: 1 for the most chosen. */
  function Rank(values: seq<string>, counts: map<string, int>, v: string): (r: nat)
    requires v in values
    ensures 1 <= r <= |values|
  {
    var sorted := SortByCount(values, counts);
    SortByCountPermutes(values, counts);
    assert v in multiset(sorted);
    IndexOf(sorted, v) + 1
  }

  /** The preference value the model gives `v`, from the counts of the issue's
      values and the number of bids they were counted over. */
  function Preference(variant: Variant, values: seq<string>, counts: map<string, int>, denom: int, v: string): (p: real)
    requires v in values
    requires variant.Agent17? ==> denom != 0
    ensures variant.JonnyBlack? ==> 0.0 < p <= 1.0
    ensures variant.Agent17? && 0 <= CountOf(counts, v) <= denom ==> 0.0 <= p <= 1.0
  {
    match variant
    case JonnyBlack =>
      RankPreferenceBounds(Rank(values, counts, v), |values|);
      RankPreference(Rank(values, counts, v), |values|)
    case Agent17 =>
      var count := CountOf(counts, v);
      assert 0 <= count <= denom ==> 0.0 <= FrequencyPreference(count, denom) <= 1.0 by {
        if 0 <= count <= denom {
          FrequencyPreferenceBounds(count, denom);
        }
      }
      FrequencyPreference(count, denom)
  }

  /** Jonny Black hands out the ranks 1..n once each: the k-th value of the
      sorted list gets preference (n - k) / n. */
  lemma RanksAreAPermutation(values: seq<string>, counts: map<string, int>, denom: int, k: nat)
    requires NoDuplicates(values)
    requires k < |values|
    ensures |SortByCount(values, counts)| == |values|
    ensures SortByCount(values, counts)[k] in values
    ensures Preference(JonnyBlack, values, counts, denom, SortByCount(values, counts)[k])
            == RankPreference(k + 1, |values|)
  {
    var sorted := SortByCount(values, counts);
    SortByCountPermutes(values, counts);
    assert |sorted| == |multiset(sorted)| == |values|;
    assert sorted[k] in multiset(values);
    PermutationKeepsDistinct(values, sorted);
    DistinctIndexOf(sorted, k);
  }

  /** Under Jonny Black a value chosen strictly more often is ranked strictly better. */
  lemma HigherCountBetterRank(values: seq<string>, counts: map<string, int>, v: string, w: string)
    requires v in values && w in values
    requires CountOf(counts, v) > CountOf(counts, w)
    ensures Rank(values, counts, v) < Rank(values, counts, w)
  {
    var sorted := SortByCount(values, counts);
    SortByCountPermutes(values, counts);
    SortByCountDescending(values, counts);
    assert v in multiset(sorted) && w in multiset(sorted);
    DescendingIndexOrder(sorted, counts, v, w);
  }

  lemma DescendingIndexOrder(s: seq<string>, counts: map<string, int>, v: string, w: string)
    requires DescendingByCount(s, counts)
    requires v in s && w in s
    requires CountOf(counts, v) > CountOf(counts, w)
    ensures IndexOf(s, v) < IndexOf(s, w)
  {
  }

  /** A value chosen strictly more often gets a strictly larger preference,
      under both variants. */
  lemma HigherCountHigherPreference(variant: Variant, values: seq<string>, counts: map<string, int>,
                                    denom: int, v: string, w: string)
    requires v in values && w in values
    requires variant.Agent17? ==> denom > 0
    requires CountOf(counts, v) > CountOf(counts, w)
    ensures Preference(variant, values, counts, denom, v) > Preference(variant, values, counts, denom, w)
  {
    if variant.JonnyBlack? {
      HigherCountBetterRank(values, counts, v, w);
      RankPreferenceStrictlyDecreasing(Rank(values, counts, v), Rank(values, counts, w), |values|);
    } else {
      DivideKeepsOrder(CountOf(counts, v) as real, CountOf(counts, w) as real, denom as real);
    }
  }

  /** Unnormalized weight of an issue: the sum of its values' weights. */
  function IssueWeight(values: seq<string>, counts: map<string, int>, denom: int): (w: real)
    requires denom != 0
    ensures w >= 0.0
    ensures (exists k :: 0 <= k < |values| && CountOf(counts, values[k]) != 0) ==> w > 0.0
  {
    if values == [] then 0.0
    else
      var last := values[|values| - 1];
      WeightFormulaBounds(CountOf(counts, last), denom);
      IssueWeight(values[..|values| - 1], counts, denom) + WeightFormula(CountOf(counts, last), denom)
  }

  /** Extending the prefix by one value adds that value's weight. */
  lemma IssueWeightStep(values: seq<string>, k: nat, counts: map<string, int>, denom: int)
    requires denom != 0 && k < |values|
    ensures IssueWeight(values[..k + 1], counts, denom)
            == IssueWeight(values[..k], counts, denom) + WeightFormula(CountOf(counts, values[k]), denom)
  {
    assert values[..k + 1][..k] == values[..k];
  }

  /** The counts of the listed values, added up. */
  function CountTotal(vs: seq<string>, counts: map<string, int>): int
  {
    if vs == [] then 0 else CountTotal(vs[..|vs| - 1], counts) + CountOf(counts, vs[|vs| - 1])
  }

  /** The preferences of the listed values of an issue, added up. */
  function PreferenceTotal(variant: Variant, values: seq<string>, counts: map<string, int>, denom: int,
                           vs: seq<string>): real
    requires forall k :: 0 <= k < |vs| ==> vs[k] in values
    requires variant.Agent17? ==> denom != 0
  {
    if vs == [] then 0.0
    else PreferenceTotal(variant, values, counts, denom, vs[..|vs| - 1]) + Preference(variant, values, counts, denom, vs[|vs| - 1])
  }

  /** Agent17 preferences are shares of the bids, so those of some values
      add up to their counts' share. */
  lemma {:induction false} FrequencyPreferenceTotal(values: seq<string>, counts: map<string, int>, denom: int,
                                                    vs: seq<string>)
    requires denom != 0
    requires forall k :: 0 <= k < |vs| ==> vs[k] in values
    ensures PreferenceTotal(Agent17, values, counts, denom, vs) == CountTotal(vs, counts) as real / denom as real
    decreases |vs|
  {
    if vs != [] {
      var front := vs[..|vs| - 1];
      FrequencyPreferenceTotal(values, counts, denom, front);
      AddShares(CountTotal(front, counts) as real, CountOf(counts, vs[|vs| - 1]) as real, denom as real);
    }
  }

  lemma AddShares(x: real, y: real, d: real)
    requires d != 0.0
    ensures x / d + y / d == (x + y) / d
  {
  }

  /** When an issue's counts add up to the bids seen, its Agent17
      preferences add up to 1. */
  lemma FrequencyPreferencesSumToOne(values: seq<string>, counts: map<string, int>, priorBids: int)
    requires priorBids > 0 && CountTotal(values, counts) == priorBids
    ensures PreferenceTotal(Agent17, values, counts, priorBids, values) == 1.0
  {
    FrequencyPreferenceTotal(values, counts, priorBids, values);
    WholeShare(priorBids as real);
  }

  lemma WholeShare(d: real)
    requires d != 0.0
    ensures d / d == 1.0
  {
  }
}
