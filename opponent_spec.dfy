/**
 * What an opponent model estimates, as a function of its counts: issue
 * weights normalized over all issues, and the estimated utility of a bid as
 * the sum over its issues of normalized weight times value preference.
 * The same functions serve the whole history (counts over all bids, divided
 * by the number of bids) and the recent window (recent counts, divided by
 * the window size).
 */
module OpponentSpec {
  import opened SeqUtil
  import opened Domains
  import opened OpponentFormulas

  /** The fixed structure of a model: its issues, and each issue's values,
      in the order the model iterates over them. */
  datatype Shape = Shape(issueOrder: seq<string>, values: map<string, seq<string>>)

  ghost predicate WellFormed(sh: Shape)
  {
    && NoDuplicates(sh.issueOrder)
    && (forall i :: i in sh.values <==> i in sh.issueOrder)
    && (forall i :: i in sh.values ==> NoDuplicates(sh.values[i]))
  }

  /** The bid names only issues and values the model knows. */
  ghost predicate Knows(sh: Shape, bid: Bid)
  {
    forall k :: 0 <= k < |bid| ==> bid[k].issue in sh.values && bid[k].value in sh.values[bid[k].issue]
  }

  /** Per issue, the count of each value. */
  type Counts = map<string, map<string, int>>

  function Row(counts: Counts, issue: string): map<string, int>
  {
    if issue in counts then counts[issue] else map[]
  }

  /** Counts of every known (issue, value) pair over a history of bids. */
  function HistoryCounts(sh: Shape, bids: seq<Bid>): (c: Counts)
    ensures forall i, v :: i in sh.values && v in sh.values[i] ==> CountOf(Row(c, i), v) == Tally(bids, i, v)
  {
    map i | i in sh.values :: map v | v in sh.values[i] :: Tally(bids, i, v) as int
  }

  /** The history counts have a row for every issue of the shape. */
  lemma HistoryKeys(sh: Shape, bids: seq<Bid>)
    ensures HistoryCounts(sh, bids).Keys == sh.values.Keys
  {
  }

  /** The row of an issue holds the tally of each of its values. */
  lemma HistoryRow(sh: Shape, bids: seq<Bid>, i: string, order: seq<string>)
    requires i in sh.values && sh.values[i] == order
    ensures i in HistoryCounts(sh, bids)
    ensures HistoryCounts(sh, bids)[i] == map v | v in order :: Tally(bids, i, v) as int
  {
  }

  /** Every known count lies between 0 and the number it is divided by. */
  ghost predicate CountsWithin(sh: Shape, counts: Counts, denom: int)
  {
    forall i, v :: i in sh.values && v in sh.values[i] ==> 0 <= CountOf(Row(counts, i), v) <= denom
  }

  /** The unnormalized weight of every issue. */
  function Weights(sh: Shape, counts: Counts, denom: int): (w: map<string, real>)
    requires denom != 0
    ensures w.Keys == sh.values.Keys
    ensures forall i :: i in w ==> w[i] >= 0.0
  {
    map i | i in sh.values :: IssueWeight(sh.values[i], Row(counts, i), denom)
  }

  /** The preference value of every known value of every issue. */
  function Preferences(variant: Variant, sh: Shape, counts: Counts, denom: int): (p: map<string, map<string, real>>)
    requires variant.Agent17? ==> denom != 0
    ensures p.Keys == sh.values.Keys
    ensures forall i :: i in p ==> p[i].Keys == set v | v in sh.values[i]
    ensures CountsWithin(sh, counts, denom) && denom > 0 ==>
              forall i, v :: i in p && v in p[i] ==> 0.0 <= p[i][v] <= 1.0
  {
    map i | i in sh.values :: map v | v in sh.values[i] :: Preference(variant, sh.values[i], Row(counts, i), denom, v)
  }

  /** Sum of the weights of `issues`. */
  function WeightSum(w: map<string, real>, issues: seq<string>): real
    requires forall i :: i in issues ==> i in w
  {
    if issues == [] then 0.0 else WeightSum(w, issues[..|issues| - 1]) + w[issues[|issues| - 1]]
  }

  /** Extending a prefix of the issues by one issue adds that issue's weight. */
  lemma WeightSumStep(w: map<string, real>, issues: seq<string>, k: nat)
    requires forall i :: i in issues ==> i in w
    requires k < |issues|
    ensures WeightSum(w, issues[..k + 1]) == WeightSum(w, issues[..k]) + w[issues[k]]
  {
    assert issues[..k + 1][..k] == issues[..k];
  }

  /** Sum of the weights of `issues`, each divided by `total`. */
  function NormalizedSum(w: map<string, real>, total: real, issues: seq<string>): real
    requires forall i :: i in issues ==> i in w
    requires total != 0.0
  {
    if issues == [] then 0.0 else NormalizedSum(w, total, issues[..|issues| - 1]) + w[issues[|issues| - 1]] / total
  }

  lemma AddRatios(a: real, b: real, t: real)
    requires t != 0.0
    ensures a / t + b / t == (a + b) / t
  {
  }

  lemma {:induction false} NormalizedSumIsRatio(w: map<string, real>, total: real, issues: seq<string>)
    requires forall i :: i in issues ==> i in w
    requires total != 0.0
    ensures NormalizedSum(w, total, issues) == WeightSum(w, issues) / total
    decreases |issues|
  {
    if issues != [] {
      NormalizedSumIsRatio(w, total, issues[..|issues| - 1]);
      AddRatios(WeightSum(w, issues[..|issues| - 1]), w[issues[|issues| - 1]], total);
    }
  }

  /** Nonnegative weights have a nonnegative sum that is at least each of its terms. */
  lemma {:induction false} WeightSumCoversTerm(w: map<string, real>, issues: seq<string>, k: nat)
    requires forall i :: i in issues ==> i in w && w[i] >= 0.0
    requires k < |issues|
    ensures WeightSum(w, issues) >= w[issues[k]]
    decreases |issues|
  {
    WeightSumNonnegative(w, issues[..|issues| - 1]);
    if k < |issues| - 1 {
      WeightSumCoversTerm(w, issues[..|issues| - 1], k);
    }
  }

  lemma {:induction false} WeightSumNonnegative(w: map<string, real>, issues: seq<string>)
    requires forall i :: i in issues ==> i in w && w[i] >= 0.0
    ensures WeightSum(w, issues) >= 0.0
    decreases |issues|
  {
    if issues != [] {
      WeightSumNonnegative(w, issues[..|issues| - 1]);
    }
  }

  /** The total that issue weights are normalized by. */
  function TotalWeight(sh: Shape, counts: Counts, denom: int): real
    requires WellFormed(sh)
    requires denom != 0
  {
    WeightSum(Weights(sh, counts, denom), sh.issueOrder)
  }

  /** The normalized issue weights sum to one whenever their total is not zero. */
  lemma NormalizedWeightsSumToOne(sh: Shape, counts: Counts, denom: int)
    requires WellFormed(sh)
    requires denom != 0
    requires TotalWeight(sh, counts, denom) != 0.0
    ensures NormalizedSum(Weights(sh, counts, denom), TotalWeight(sh, counts, denom), sh.issueOrder) == 1.0
  {
    var total := TotalWeight(sh, counts, denom);
    NormalizedSumIsRatio(Weights(sh, counts, denom), total, sh.issueOrder);
    SelfRatio(total);
  }

  lemma ScaledProduct(u: real, share: real, preference: real, weight: real, total: real, p: real)
    requires u == share * preference
    requires total != 0.0 && share == weight / total && preference == p
    ensures u == (weight / total) * p
  {
  }

  lemma ZeroShare(u: real, share: real, preference: real)
    requires u == share * preference && share == 0.0
    ensures u == 0.0
  {
  }

  lemma SelfRatio(t: real)
    requires t != 0.0
    ensures t / t == 1.0
  {
  }

  /** Once some known value has a nonzero count, the total weight is positive:
      normalizing by it is well defined. */
  lemma TotalWeightPositive(sh: Shape, counts: Counts, denom: int, issue: string, value: string)
    requires WellFormed(sh)
    requires denom != 0
    requires issue in sh.values && value in sh.values[issue]
    requires CountOf(Row(counts, issue), value) != 0
    ensures TotalWeight(sh, counts, denom) > 0.0
  {
    var w := Weights(sh, counts, denom);
    var m := IndexOf(sh.values[issue], value);
    assert CountOf(Row(counts, issue), sh.values[issue][m]) != 0;
    assert w[issue] > 0.0;
    WeightSumCoversTerm(w, sh.issueOrder, IndexOf(sh.issueOrder, issue));
  }

  /** The weights and preferences cover every assignment of the bid. */
  ghost predicate Covers(w: map<string, real>, p: map<string, map<string, real>>, bid: Bid)
  {
    forall k :: 0 <= k < |bid| ==> bid[k].issue in w && bid[k].issue in p && bid[k].value in p[bid[k].issue]
  }

  /** Sum over the issues of a bid of normalized weight times preference. */
  function BidUtility(w: map<string, real>, total: real, p: map<string, map<string, real>>, bid: Bid): real
    requires Covers(w, p, bid)
    requires total != 0.0
  {
    if bid == [] then 0.0
    else
      var a := bid[|bid| - 1];
      BidUtility(w, total, p, bid[..|bid| - 1]) + (w[a.issue] / total) * p[a.issue][a.value]
  }

  /** Estimated utility of a bid for the opponent. */
  function Utility(variant: Variant, sh: Shape, counts: Counts, denom: int, bid: Bid): real
    requires WellFormed(sh) && Knows(sh, bid)
    requires denom != 0 && TotalWeight(sh, counts, denom) != 0.0
  {
    BidUtility(Weights(sh, counts, denom), TotalWeight(sh, counts, denom), Preferences(variant, sh, counts, denom), bid)
  }

  /** Sum of the weights of the issues a bid names. */
  function BidWeight(w: map<string, real>, bid: Bid): real
    requires forall k :: 0 <= k < |bid| ==> bid[k].issue in w
  {
    if bid == [] then 0.0 else BidWeight(w, bid[..|bid| - 1]) + w[bid[|bid| - 1].issue]
  }

  /** `s` without `x`. */
  function Without(s: seq<string>, x: string): (r: seq<string>)
    ensures forall y :: y in r <==> y in s && y != x
  {
    if s == [] then []
    else if s[|s| - 1] == x then Without(s[..|s| - 1], x)
    else Without(s[..|s| - 1], x) + [s[|s| - 1]]
  }

  lemma {:induction false} WithoutKeepsDistinct(s: seq<string>, x: string)
    requires NoDuplicates(s)
    ensures NoDuplicates(Without(s, x))
    decreases |s|
  {
    if s != [] {
      var front := s[..|s| - 1];
      assert NoDuplicates(front);
      WithoutKeepsDistinct(front, x);
      if s[|s| - 1] != x {
        var r := Without(front, x);
        var t := r + [s[|s| - 1]];
        assert s[|s| - 1] !in front;
        assert s[|s| - 1] !in r;
        forall i, j | 0 <= i < j < |t| ensures t[i] != t[j] {
          assert t[i] == r[i];
          if j < |r| {
            assert t[j] == r[j];
          }
        }
      }
    }
  }

  lemma {:induction false} WithoutAbsent(s: seq<string>, x: string)
    requires x !in s
    ensures Without(s, x) == s
    decreases |s|
  {
    if s != [] {
      WithoutAbsent(s[..|s| - 1], x);
      assert s == s[..|s| - 1] + [s[|s| - 1]];
    }
  }

  lemma {:induction false} WeightSumWithout(w: map<string, real>, issues: seq<string>, x: string)
    requires forall i :: i in issues ==> i in w
    requires NoDuplicates(issues) && x in issues
    ensures WeightSum(w, issues) == w[x] + WeightSum(w, Without(issues, x))
    decreases |issues|
  {
    var front := issues[..|issues| - 1];
    var last := issues[|issues| - 1];
    if last == x {
      assert x !in front;
      WithoutAbsent(front, x);
    } else {
      assert x in front;
      WeightSumWithout(w, front, x);
      var rest := Without(front, x);
      assert Without(issues, x) == rest + [last];
      assert (rest + [last])[..|rest + [last]| - 1] == rest;
    }
  }

  /** The issues of a single-valued bid are distinct, so their weights add up
      to no more than the weights of all the issues they are drawn from. */
  lemma {:induction false} BidWeightAtMostTotal(w: map<string, real>, bid: Bid, issues: seq<string>)
    requires SingleValued(bid)
    requires forall i :: i in issues ==> i in w && w[i] >= 0.0
    requires NoDuplicates(issues)
    requires forall k :: 0 <= k < |bid| ==> bid[k].issue in issues
    ensures BidWeight(w, bid) <= WeightSum(w, issues)
    decreases |bid|
  {
    if bid == [] {
      WeightSumNonnegative(w, issues);
    } else {
      var front := bid[..|bid| - 1];
      var x := bid[|bid| - 1].issue;
      WeightSumWithout(w, issues, x);
      var rest := Without(issues, x);
      WithoutKeepsDistinct(issues, x);
      forall k | 0 <= k < |front| ensures front[k].issue in rest {
        assert front[k].issue != x by { assert front[k] == bid[k]; }
      }
      BidWeightAtMostTotal(w, front, rest);
    }
  }

  lemma ProductBounds(u: real, share: real, p: real)
    requires u == share * p
    requires share >= 0.0
    requires 0.0 <= p <= 1.0
    ensures 0.0 <= u <= share
  {
  }

  lemma SumOfBoundedRatios(a: real, b: real, x: real, y: real, t: real)
    requires t > 0.0
    requires 0.0 <= a <= x / t
    requires 0.0 <= b <= y / t
    ensures 0.0 <= a + b <= (x + y) / t
  {
    AddRatios(x, y, t);
  }

  lemma {:induction false} BidUtilityBounds(w: map<string, real>, total: real, p: map<string, map<string, real>>, bid: Bid)
    requires Covers(w, p, bid)
    requires total > 0.0
    requires forall i :: i in w ==> w[i] >= 0.0
    requires forall i, v :: i in p && v in p[i] ==> 0.0 <= p[i][v] <= 1.0
    ensures 0.0 <= BidUtility(w, total, p, bid) <= BidWeight(w, bid) / total
    decreases |bid|
  {
    if bid == [] {
      RatioFacts(0.0, total);
    } else {
      var front, last := bid[..|bid| - 1], bid[|bid| - 1];
      BidUtilityBounds(w, total, p, front);
      var a := BidUtility(w, total, p, front);
      var x := BidWeight(w, front);
      var y := w[last.issue];
      RatioFacts(y, total);
      var b := (y / total) * p[last.issue][last.value];
      ProductBounds(b, y / total, p[last.issue][last.value]);
      SumOfBoundedRatios(a, b, x, y, total);
      assert BidUtility(w, total, p, bid) == a + b;
      assert BidWeight(w, bid) == x + y;
    }
  }

  /** The estimated utility of a bid that names each issue at most once lies
      between 0 and 1. */
  lemma UtilityBounds(variant: Variant, sh: Shape, counts: Counts, denom: int, bid: Bid)
    requires WellFormed(sh) && Knows(sh, bid) && SingleValued(bid)
    requires denom > 0 && TotalWeight(sh, counts, denom) != 0.0
    requires CountsWithin(sh, counts, denom)
    ensures 0.0 <= Utility(variant, sh, counts, denom, bid) <= 1.0
  {
    var w := Weights(sh, counts, denom);
    var p := Preferences(variant, sh, counts, denom);
    var total := TotalWeight(sh, counts, denom);
    WeightSumNonnegative(w, sh.issueOrder);
    BidUtilityBounds(w, total, p, bid);
    BidWeightAtMostTotal(w, bid, sh.issueOrder);
    RatioFacts(BidWeight(w, bid), total);
  }

  /** Counts taken over a history of single-valued bids never exceed the
      number of bids, nor the window size for the recent ones. */
  lemma HistoryCountsWithin(sh: Shape, bids: seq<Bid>, w: nat)
    requires forall k :: 0 <= k < |bids| ==> SingleValued(bids[k])
    ensures CountsWithin(sh, HistoryCounts(sh, bids), |bids|)
    ensures CountsWithin(sh, HistoryCounts(sh, Window(bids, w)), w)
  {
    forall i, v | i in sh.values && v in sh.values[i]
      ensures Tally(bids, i, v) <= |bids| && Tally(Window(bids, w), i, v) <= w
    {
      TallyAtMostLength(bids, i, v);
      TallyAtMostLength(Window(bids, w), i, v);
    }
  }
}
