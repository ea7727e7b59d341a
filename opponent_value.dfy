/**
 * One value of one issue, as the frequency models track it: how often the
 * opponent chose it (over all bids and over the recent window), and the
 * preference value and weight last computed from those counts.
 */
module OpponentValues {
  import opened Decimals
  import opened OpponentFormulas

  /** A snapshot of the mutable fields of a value. */
  datatype ValueState = ValueState(
    count: int,
    recentCount: int,
    preferenceValue: real,
    recentPreferenceValue: real,
    weight: real,
    recentWeight: real)

  /** The state of a value nobody has chosen yet. */
  const FRESH_STATE: ValueState := ValueState(0, 0, 0.0, 0.0, 0.0, 0.0)

  class OpponentValue {
    /** Which concrete model the value belongs to: the subclass of the source. */
    const variant: Variant
    const name: string
    var count: int
    var recentCount: int
    var preferenceValue: real
    var recentPreferenceValue: real
    var weight: real
    var recentWeight: real

    ghost function State(): ValueState
      reads this
    {
      ValueState(count, recentCount, preferenceValue, recentPreferenceValue, weight, recentWeight)
    }

    constructor (variant: Variant, name: string)
      ensures this.variant == variant && this.name == name
      ensures State() == FRESH_STATE
    {
      this.variant := variant;
      this.name := name;
      count := 0;
      recentCount := 0;
      preferenceValue := 0.0;
      recentPreferenceValue := 0.0;
      weight := 0.0;
      recentWeight := 0.0;
    }

    /** The value was chosen in a new bid: it counts both in total and recently. */
    method IncrementCount()
      modifies this
      ensures State() == old(State()).(count := old(count) + 1, recentCount := old(recentCount) + 1)
    {
      count := count + 1;
      recentCount := recentCount + 1;
    }

    /** A bid choosing the value left the recent window. */
    method DecrementRecentCount()
      modifies this
      ensures State() == old(State()).(recentCount := old(recentCount) - 1)
    {
      recentCount := recentCount - 1;
    }

    /** Preference from the value's rank (Jonny Black) or its count (Agent17). */
    method CalculatePreferenceValue(rank: int, numValues: int, priorBids: int) returns (p: real)
      requires variant.JonnyBlack? ==> numValues != 0
      requires variant.Agent17? ==> priorBids != 0
      modifies this
      ensures p == if variant.JonnyBlack? then RankPreference(rank, numValues) else FrequencyPreference(count, priorBids)
      ensures State() == old(State()).(preferenceValue := p)
    {
      if variant.JonnyBlack? {
        preferenceValue := RankPreference(rank, numValues);
      } else {
        preferenceValue := FrequencyPreference(count, priorBids);
      }
      p := preferenceValue;
    }

    /** The same formula over the recent count and the window size. */
    method CalculateRecentPreferenceValue(rank: int, numValues: int, bidWindow: int) returns (p: real)
      requires variant.JonnyBlack? ==> numValues != 0
      requires variant.Agent17? ==> bidWindow != 0
      modifies this
      ensures p == if variant.JonnyBlack? then RankPreference(rank, numValues) else FrequencyPreference(recentCount, bidWindow)
      ensures State() == old(State()).(recentPreferenceValue := p)
    {
      if variant.JonnyBlack? {
        recentPreferenceValue := RankPreference(rank, numValues);
      } else {
        recentPreferenceValue := FrequencyPreference(recentCount, bidWindow);
      }
      p := recentPreferenceValue;
    }

    /** Unnormalized weight: the squared share of the bids choosing the value. */
    method CalculateWeight(priorBids: int) returns (w: real)
      requires priorBids != 0
      modifies this
      ensures w == WeightFormula(count, priorBids)
      ensures State() == old(State()).(weight := w)
    {
      weight := WeightFormula(count, priorBids);
      w := weight;
    }

    method CalculateRecentWeight(bidWindow: int) returns (w: real)
      requires bidWindow != 0
      modifies this
      ensures w == WeightFormula(recentCount, bidWindow)
      ensures State() == old(State()).(recentWeight := w)
    {
      recentWeight := WeightFormula(recentCount, bidWindow);
      w := recentWeight;
    }

    /** The name and the count, as the base class prints them. */
    function ToString(): (s: string)
      reads this
      ensures |s| > |name| + 8 && s[..|name|] == name && s[|name|..|name| + 8] == ", count="
      ensures IsIntText(s[|name| + 8..]) && ParseInt(s[|name| + 8..]) == count
    {
      var s := name + ", count=" + IntToString(count);
      IntToStringRoundTrip(count);
      assert s[|name| + 8..] == IntToString(count);
      s
    }
  }

  /** After `i` increments and `d` recent decrements a new value has count
      `i` and recent count `i - d`, and its other fields keep their last values. */
  lemma CountsAfterUpdates(s: ValueState, i: nat, d: nat)
    requires s == FRESH_STATE
    ensures Incremented(Decremented(s, d), i).count == i
    ensures Incremented(Decremented(s, d), i).recentCount == i - d
    ensures Decremented(Incremented(s, i), d) == Incremented(Decremented(s, d), i)
  {
    IncrementedShape(s, i);
    DecrementedShape(s, d);
    IncrementedShape(Decremented(s, d), i);
    DecrementedShape(Incremented(s, i), d);
  }

  /** The state after `i` calls of IncrementCount. */
  function Incremented(s: ValueState, i: nat): ValueState
  {
    if i == 0 then s else Incremented(s, i - 1).(count := Incremented(s, i - 1).count + 1,
                                                recentCount := Incremented(s, i - 1).recentCount + 1)
  }

  /** The state after `d` calls of DecrementRecentCount. */
  function Decremented(s: ValueState, d: nat): ValueState
  {
    if d == 0 then s else Decremented(s, d - 1).(recentCount := Decremented(s, d - 1).recentCount - 1)
  }

  lemma {:induction false} IncrementedShape(s: ValueState, i: nat)
    ensures Incremented(s, i) == s.(count := s.count + i, recentCount := s.recentCount + i)
  {
    if i > 0 {
      IncrementedShape(s, i - 1);
    }
  }

  lemma {:induction false} DecrementedShape(s: ValueState, d: nat)
    ensures Decremented(s, d) == s.(recentCount := s.recentCount - d)
  {
    if d > 0 {
      DecrementedShape(s, d - 1);
    }
  }
}
