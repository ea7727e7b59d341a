/**
 * One issue of the domain as the frequency models track it: its values, in
 * the iteration order of the value map, and the weights last computed for it.
 * The Jonny Black and Agent17 subclasses of the source differ only in how
 * they compute preference values; `variant` selects between them.
 */
module OpponentIssues {
  import opened Wrappers
  import opened SeqUtil
  import opened Domains
  import opened OpponentFormulas
  import opened OpponentValues

  class OpponentIssue {
    const issueNo: int
    const name: string
    const variant: Variant
    /** The value names in the iteration order of the value map: each
        distinct name once, first occurrence first. */
    const order: seq<string>
    const values: map<string, OpponentValue>
    const numValues: int
    var normalizedWeight: real
    var normalizedRecentWeight: real
    var unnormalizedWeight: real
    var unnormalizedRecentWeight: real

    /** The value map is keyed by the values' own names, so no value object
        is shared by two names. */
    ghost predicate Valid()
    {
      && NoDuplicates(order)
      && (forall v :: v in values <==> v in order)
      && numValues == |order|
      && (forall v :: v in values ==> values[v].name == v && values[v].variant == variant)
    }

    /** The count of every value. */
    function Counts(): (c: map<string, int>)
      reads values.Values
      ensures c.Keys == values.Keys
    {
      map v | v in values :: values[v].count
    }

    /** The recent count of every value. */
    function RecentCounts(): (c: map<string, int>)
      reads values.Values
      ensures c.Keys == values.Keys
    {
      map v | v in values :: values[v].recentCount
    }

    /** The stored weights of the issue and the stored preferences and
        weights of its values are those the formulas give for the counts `c`
        over `priorBids` bids and the recent counts `rc` over a window of
        `bidWindow` bids. */
    ghost predicate EstimatesAre(priorBids: int, bidWindow: int, c: map<string, int>, rc: map<string, int>)
      requires Valid()
      requires priorBids != 0 && bidWindow != 0
      reads this`unnormalizedWeight, this`unnormalizedRecentWeight, values.Values
    {
      && unnormalizedWeight == IssueWeight(order, c, priorBids)
      && unnormalizedRecentWeight == IssueWeight(order, rc, bidWindow)
      && forall v :: v in values ==>
           && values[v].preferenceValue == Preference(variant, order, c, priorBids, v)
           && values[v].recentPreferenceValue == Preference(variant, order, rc, bidWindow, v)
           && values[v].weight == WeightFormula(CountOf(c, v), priorBids)
           && values[v].recentWeight == WeightFormula(CountOf(rc, v), bidWindow)
    }

    /** Builds one fresh, zero-count value per distinct name; a repeated name
        replaces the value built for it before. Returns the number of values. */
    static method CreateOpponentValues(variant: Variant, valueNames: seq<string>)
      returns (m: map<string, OpponentValue>, order: seq<string>, n: int)
      ensures order == Dedup(valueNames)
      ensures forall v :: v in m <==> v in order
      ensures n == |order|
      ensures forall v :: v in m ==> fresh(m[v])
      ensures forall v :: v in m ==> m[v].name == v && m[v].variant == variant && m[v].State() == FRESH_STATE
    {
      m := map[];
      order := [];
      for k := 0 to |valueNames|
        invariant order == Dedup(valueNames[..k])
        invariant forall v :: v in m <==> v in order
        invariant |m| == |order|
        invariant forall v :: v in m ==> fresh(m[v])
        invariant forall v :: v in m ==> m[v].name == v && m[v].variant == variant && m[v].State() == FRESH_STATE
      {
        var x := valueNames[k];
        DedupStep(valueNames, k);
        var value := new OpponentValue(variant, x);
        if x !in m {
          order := order + [x];
          assert |m[x := value]| == |m| + 1;
        } else {
          assert m[x := value].Keys == m.Keys;
        }
        m := m[x := value];
      }
      assert valueNames[..|valueNames|] == valueNames;
      n := |m|;
    }

    /** An issue of the domain with fresh values and all weights zero. A
        non-discrete issue is one with no values. */
    constructor (variant: Variant, issue: Issue)
      ensures this.issueNo == issue.number && this.name == issue.name && this.variant == variant
      ensures order == Dedup(issue.values) && numValues == |order|
      ensures Valid()
      ensures fresh(values.Values)
      ensures forall v :: v in values ==> values[v].State() == FRESH_STATE
      ensures normalizedWeight == 0.0 && normalizedRecentWeight == 0.0
      ensures unnormalizedWeight == 0.0 && unnormalizedRecentWeight == 0.0
    {
      var m, o, n := CreateOpponentValues(variant, issue.values);
      this.issueNo := issue.number;
      this.name := issue.name;
      this.variant := variant;
      this.values := m;
      this.order := o;
      this.numValues := n;
      normalizedWeight := 0.0;
      normalizedRecentWeight := 0.0;
      unnormalizedWeight := 0.0;
      unnormalizedRecentWeight := 0.0;
    }

    /** The value with the given name, if the issue has one. */
    function GetValue(valueName: string): (r: Option<OpponentValue>)
      requires Valid()
      ensures r.Some? <==> valueName in order
      ensures r.Some? ==> r.value in values.Values && r.value.name == valueName
    {
      if valueName in values then Some(values[valueName]) else None
    }

    /** Count one more choice of the named value, in total and recently; an
        unknown name changes nothing. */
    method IncrementValueCount(valueName: string)
      requires Valid()
      modifies values.Values
      ensures forall v :: v in values ==>
                values[v].State() == if v == valueName
                                     then old(values[v].State()).(count := old(values[v].count) + 1,
                                                                  recentCount := old(values[v].recentCount) + 1)
                                     else old(values[v].State())
    {
      var value := GetValue(valueName);
      if value.Some? {
        value.value.IncrementCount();
      }
    }

    /** Forget one recent choice of the named value; an unknown name changes nothing. */
    method DecrementValueRecentCount(valueName: string)
      requires Valid()
      modifies values.Values
      ensures forall v :: v in values ==>
                values[v].State() == if v == valueName
                                     then old(values[v].State()).(recentCount := old(values[v].recentCount) - 1)
                                     else old(values[v].State())
    {
      var value := GetValue(valueName);
      if value.Some? {
        value.value.DecrementRecentCount();
      }
    }

    method CalculateNormalizedWeight(totalUnnormalizedWeight: real) returns (w: real)
      requires totalUnnormalizedWeight != 0.0
      modifies this
      ensures w == normalizedWeight == unnormalizedWeight / totalUnnormalizedWeight
      ensures unnormalizedWeight == old(unnormalizedWeight)
      ensures unnormalizedRecentWeight == old(unnormalizedRecentWeight)
      ensures normalizedRecentWeight == old(normalizedRecentWeight)
    {
      normalizedWeight := unnormalizedWeight / totalUnnormalizedWeight;
      w := normalizedWeight;
    }

    method CalculateNormalizedRecentWeight(totalUnnormalizedRecentWeight: real) returns (w: real)
      requires totalUnnormalizedRecentWeight != 0.0
      modifies this
      ensures w == normalizedRecentWeight == unnormalizedRecentWeight / totalUnnormalizedRecentWeight
      ensures unnormalizedWeight == old(unnormalizedWeight)
      ensures unnormalizedRecentWeight == old(unnormalizedRecentWeight)
      ensures normalizedWeight == old(normalizedWeight)
    {
      normalizedRecentWeight := unnormalizedRecentWeight / totalUnnormalizedRecentWeight;
      w := normalizedRecentWeight;
    }

    /** Sets every value's weight to its squared share of `priorBids` and
        stores their sum as the issue's unnormalized weight. */
    method CalculateUnnormalizedWeight(priorBids: int) returns (w: real)
      requires Valid() && priorBids != 0
      modifies this, values.Values
      ensures w == unnormalizedWeight == IssueWeight(order, old(Counts()), priorBids)
      ensures forall v :: v in values ==>
                values[v].State() == old(values[v].State()).(weight := WeightFormula(old(values[v].count), priorBids))
      ensures normalizedWeight == old(normalizedWeight) && normalizedRecentWeight == old(normalizedRecentWeight)
      ensures unnormalizedRecentWeight == old(unnormalizedRecentWeight)
    {
      ghost var c := Counts();
      unnormalizedWeight := 0.0;
      for k := 0 to |order|
        invariant unnormalizedWeight == IssueWeight(order[..k], c, priorBids)
        invariant forall v :: v in values ==>
                    values[v].State() == old(values[v].State()).(weight := if v in order[..k]
                                                                           then WeightFormula(old(values[v].count), priorBids)
                                                                           else old(values[v].weight))
        invariant normalizedWeight == old(normalizedWeight) && normalizedRecentWeight == old(normalizedRecentWeight)
        invariant unnormalizedRecentWeight == old(unnormalizedRecentWeight)
      {
        var value := values[order[k]];
        assert value.count == CountOf(c, order[k]);
        var x := value.CalculateWeight(priorBids);
        IssueWeightStep(order, k, c, priorBids);
        unnormalizedWeight := unnormalizedWeight + x;
        PrefixExtend(order, k);
      }
      assert order[..|order|] == order;
      w := unnormalizedWeight;
    }

    /** The same over the recent counts; the model passes its window size. */
    method CalculateUnnormalizedRecentWeight(priorBids: int) returns (w: real)
      requires Valid() && priorBids != 0
      modifies this, values.Values
      ensures w == unnormalizedRecentWeight == IssueWeight(order, old(RecentCounts()), priorBids)
      ensures forall v :: v in values ==>
                values[v].State() == old(values[v].State()).(recentWeight := WeightFormula(old(values[v].recentCount), priorBids))
      ensures normalizedWeight == old(normalizedWeight) && normalizedRecentWeight == old(normalizedRecentWeight)
      ensures unnormalizedWeight == old(unnormalizedWeight)
    {
      ghost var c := RecentCounts();
      unnormalizedRecentWeight := 0.0;
      for k := 0 to |order|
        invariant unnormalizedRecentWeight == IssueWeight(order[..k], c, priorBids)
        invariant forall v :: v in values ==>
                    values[v].State() == old(values[v].State()).(recentWeight := if v in order[..k]
                                                                                 then WeightFormula(old(values[v].recentCount), priorBids)
                                                                                 else old(values[v].recentWeight))
        invariant normalizedWeight == old(normalizedWeight) && normalizedRecentWeight == old(normalizedRecentWeight)
        invariant unnormalizedWeight == old(unnormalizedWeight)
      {
        var value := values[order[k]];
        assert value.recentCount == CountOf(c, order[k]);
        var x := value.CalculateRecentWeight(priorBids);
        IssueWeightStep(order, k, c, priorBids);
        unnormalizedRecentWeight := unnormalizedRecentWeight + x;
        PrefixExtend(order, k);
      }
      assert order[..|order|] == order;
      w := unnormalizedRecentWeight;
    }

    /** Preference values of the model's variant: Jonny Black ranks the
        values, Agent17 takes their frequencies. */
    method UpdatePreferenceValues(priorBids: int, bidWindow: int)
      requires Valid()
      requires variant.Agent17? ==> priorBids != 0 && bidWindow != 0
      modifies values.Values
      ensures forall v :: v in values ==>
                values[v].State() == old(values[v].State()).(
                  preferenceValue := Preference(variant, order, old(Counts()), priorBids, v),
                  recentPreferenceValue := Preference(variant, order, old(RecentCounts()), bidWindow, v))
    {
      if variant.JonnyBlack? {
        UpdateRankPreferences(priorBids, bidWindow);
      } else {
        UpdateFrequencyPreferences(priorBids, bidWindow);
      }
    }

    /** Jonny Black: the values sorted by count get the ranks 1, 2, ... and
        the values sorted by recent count get recent ranks the same way. */
    method UpdateRankPreferences(priorBids: int, bidWindow: int)
      requires Valid() && variant.JonnyBlack?
      modifies values.Values
      ensures forall v :: v in values ==>
                values[v].State() == old(values[v].State()).(
                  preferenceValue := Preference(JonnyBlack, order, old(Counts()), priorBids, v),
                  recentPreferenceValue := Preference(JonnyBlack, order, old(RecentCounts()), bidWindow, v))
    {
      ghost var c, rc := Counts(), RecentCounts();
      RankByCount(priorBids);
      assert RecentCounts() == rc by {
        forall v | v in values ensures RecentCounts()[v] == rc[v] {
          assert values[v].recentCount == old(values[v].recentCount);
        }
      }
      RankByRecentCount(bidWindow);
    }

    /** The first loop of the Jonny Black update: ranks by count. */
    method RankByCount(priorBids: int)
      requires Valid() && variant.JonnyBlack?
      modifies values.Values
      ensures forall v :: v in values ==>
                values[v].State() == old(values[v].State()).(
                  preferenceValue := Preference(JonnyBlack, order, old(Counts()), priorBids, v))
    {
      ghost var c := Counts();
      var sorted := SortByCount(order, Counts());
      SortByCountPermutes(order, c);
      PermutationKeepsDistinct(order, sorted);
      assert |sorted| == numValues by {
        assert |multiset(sorted)| == |multiset(order)|;
      }
      forall j | 0 <= j < |sorted| ensures sorted[j] in values {
        assert sorted[j] in multiset(order);
      }
      var rank := 1;
      for k := 0 to |sorted|
        invariant rank == k + 1
        invariant forall j :: 0 <= j < |sorted| ==> sorted[j] in values
        invariant forall j :: 0 <= j < |sorted| ==>
                    values[sorted[j]].State() == old(values[sorted[j]].State()).(
                      preferenceValue := if j < k then RankPreference(j + 1, numValues) else old(values[sorted[j]].preferenceValue))
      {
        var p := values[sorted[k]].CalculatePreferenceValue(rank, numValues, priorBids);
        rank := rank + 1;
      }
      forall v | v in values
        ensures values[v].State() == old(values[v].State()).(
                  preferenceValue := Preference(JonnyBlack, order, c, priorBids, v))
      {
        assert v in multiset(sorted);
        var j := IndexOf(sorted, v);
        RanksAreAPermutation(order, c, priorBids, j);
      }
    }

    /** The second loop of the Jonny Black update: ranks by recent count. */
    method RankByRecentCount(bidWindow: int)
      requires Valid() && variant.JonnyBlack?
      modifies values.Values
      ensures forall v :: v in values ==>
                values[v].State() == old(values[v].State()).(
                  recentPreferenceValue := Preference(JonnyBlack, order, old(RecentCounts()), bidWindow, v))
    {
      ghost var rc := RecentCounts();
      var sorted := SortByCount(order, RecentCounts());
      SortByCountPermutes(order, rc);
      PermutationKeepsDistinct(order, sorted);
      assert |sorted| == numValues by {
        assert |multiset(sorted)| == |multiset(order)|;
      }
      forall j | 0 <= j < |sorted| ensures sorted[j] in values {
        assert sorted[j] in multiset(order);
      }
      var rank := 1;
      for k := 0 to |sorted|
        invariant rank == k + 1
        invariant forall j :: 0 <= j < |sorted| ==> sorted[j] in values
        invariant forall j :: 0 <= j < |sorted| ==>
                    values[sorted[j]].State() == old(values[sorted[j]].State()).(
                      recentPreferenceValue := if j < k then RankPreference(j + 1, numValues) else old(values[sorted[j]].recentPreferenceValue))
      {
        var p := values[sorted[k]].CalculateRecentPreferenceValue(rank, numValues, bidWindow);
        rank := rank + 1;
      }
      forall v | v in values
        ensures values[v].State() == old(values[v].State()).(
                  recentPreferenceValue := Preference(JonnyBlack, order, rc, bidWindow, v))
      {
        assert v in multiset(sorted);
        var j := IndexOf(sorted, v);
        RanksAreAPermutation(order, rc, bidWindow, j);
      }
    }

    /** Agent17: every value's preference is its share of the prior bids, and
        its recent preference its share of the window. */
    method UpdateFrequencyPreferences(priorBids: int, bidWindow: int)
      requires Valid() && variant.Agent17?
      requires priorBids != 0 && bidWindow != 0
      modifies values.Values
      ensures forall v :: v in values ==>
                values[v].State() == old(values[v].State()).(
                  preferenceValue := FrequencyPreference(old(values[v].count), priorBids),
                  recentPreferenceValue := FrequencyPreference(old(values[v].recentCount), bidWindow))
    {
      for k := 0 to |order|
        invariant forall v :: v in values ==>
                    values[v].State() == if v in order[..k]
                                         then old(values[v].State()).(
                                                preferenceValue := FrequencyPreference(old(values[v].count), priorBids),
                                                recentPreferenceValue := FrequencyPreference(old(values[v].recentCount), bidWindow))
                                         else old(values[v].State())
      {
        var v := order[k];
        var p := values[v].CalculatePreferenceValue(0, numValues, priorBids);
        var r := values[v].CalculateRecentPreferenceValue(0, numValues, bidWindow);
        assert order[..k + 1] == order[..k] + [v];
      }
      assert order[..|order|] == order;
    }
  }
}
