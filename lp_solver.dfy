/**
 * The two linear programs that estimate the user's utility function from a
 * bid ranking: the first solves for one utility per value, the second, from
 * those, for one weight per issue. The model builds the constraint rows and
 * lists exactly as the agent does; the simplex optimizer itself is a
 * parameter that returns a point or fails.
 */
module LPSolvers {
  import opened Wrappers
  import opened Domains
  import opened SeqUtil

  datatype Relationship = GEQ | EQ

  /** A linear constraint: `coefficients` · x `relationship` `value`. */
  datatype Constraint = Constraint(coefficients: seq<real>, relationship: Relationship, value: real)

  /** The user's bid ranking, lowest first, with its extreme bids and their
      utilities. */
  datatype Ranking = Ranking(bidOrder: seq<Bid>, maximalBid: Bid, minimalBid: Bid, highUtility: real, lowUtility: real)

  /** What `solve` returns: the value utilities (None for null), the issue
      weights (None for null), and whether a stage failed. */
  datatype LPSolverResult = LPSolverResult(solvedValues: Option<map<string, real>>, solvedIssues: Option<map<Issue, real>>, failed: bool)

  /** The simplex optimizer: minimizes the objective under the constraints
      and returns the optimal point, or None when it throws. */
  type Optimizer = (seq<real>, seq<Constraint>) -> Option<seq<real>>

  /** The optimizer returns points as long as the objective. */
  ghost predicate PointsFit(optimize: Optimizer)
  {
    forall objective, constraints :: optimize(objective, constraints).Some? ==>
      |optimize(objective, constraints).value| == |objective|
  }

  /** A row of `size` coefficients, 1 at the toggled indices and 0 elsewhere. */
  function Indicator(size: nat, toggled: seq<int>): (r: seq<real>)
    ensures |r| == size
  {
    seq(size, c => if c in toggled then 1.0 else 0.0)
  }

  /** `getRangeBetween(start, end)`: the indices from `start` up to, not
      including, `end`, in order. */
  function Range(start: int, end: int): (r: seq<int>)
    ensures forall k :: k in r <==> start <= k < end
    decreases end - start
  {
    if end <= start then [] else Range(start, end - 1) + [end - 1]
  }

  /** The entrywise difference of two rows. */
  function Difference(a: seq<real>, b: seq<real>): (r: seq<real>)
    requires |a| == |b|
    ensures |r| == |a| && forall c :: 0 <= c < |a| ==> r[c] == a[c] - b[c]
  {
    seq(|a|, c requires 0 <= c < |a| => a[c] - b[c])
  }

  /** All values of all issues, issue by issue. */
  function Flatten(issues: seq<Issue>): seq<string>
  {
    if issues == [] then [] else Flatten(issues[..|issues| - 1]) + issues[|issues| - 1].values
  }

  /** The map filled by putting each value with its index in turn: each
      name ends up with the index of its last occurrence. */
  function LastIndex(values: seq<string>): map<string, int>
  {
    if values == [] then map[] else LastIndex(values[..|values| - 1])[values[|values| - 1] := |values| - 1]
  }

  /** One more issue appends its values. */
  lemma FlattenStep(issues: seq<Issue>, i: nat)
    requires i < |issues|
    ensures Flatten(issues[..i + 1]) == Flatten(issues[..i]) + issues[i].values
  {
    assert issues[..i + 1][..i] == issues[..i];
  }

  /** Putting one more value maps it to its index. */
  lemma LastIndexStep(values: seq<string>, v: string)
    ensures LastIndex(values + [v]) == LastIndex(values)[v := |values|]
  {
    assert (values + [v])[..|values|] == values;
  }

  /** A name is mapped exactly when it is a value, and to the index of its
      last occurrence: so the map is injective, and it covers every index
      exactly when no two values share a name. */
  lemma {:induction false} LastIndexMeaning(values: seq<string>, v: string)
    ensures v in LastIndex(values) <==> v in values
    ensures v in LastIndex(values) ==>
              && 0 <= LastIndex(values)[v] < |values| && values[LastIndex(values)[v]] == v
              && forall j :: LastIndex(values)[v] < j < |values| ==> values[j] != v
    decreases |values|
  {
    if values != [] {
      var front := values[..|values| - 1];
      LastIndexMeaning(front, v);
      if v in front {
        var i :| 0 <= i < |front| && front[i] == v;
        assert values[i] == v;
      }
      if v in values && values[|values| - 1] != v {
        var i :| 0 <= i < |values| && values[i] == v;
        assert front[i] == v;
      }
    }
  }

  /** The values of the issues in order, each issue's values together. */
  lemma {:induction false} FlattenLength(issues: seq<Issue>)
    ensures |Flatten(issues)| >= |issues| || exists k :: 0 <= k < |issues| && issues[k].values == []
    decreases |issues|
  {
    if issues != [] {
      var front := issues[..|issues| - 1];
      FlattenLength(front);
      if exists k :: 0 <= k < |front| && front[k].values == [] {
        var k :| 0 <= k < |front| && front[k].values == [];
        assert issues[k] == front[k];
      }
    }
  }

  /** Slack rows: row i toggles the slack column `offset + i` alone, >= 0. */
  function SlackRows(width: nat, offset: nat, count: int): (r: seq<Constraint>)
    ensures |r| == if count < 0 then 0 else count
  {
    seq(if count < 0 then 0 else count, i => Constraint(Indicator(width, [offset + i]), GEQ, 0.0))
  }

  /** Nonnegativity rows: row i toggles column i alone, >= 0. */
  function NonNegativeRows(width: nat, count: nat): (r: seq<Constraint>)
    ensures |r| == count
  {
    seq(count, i => Constraint(Indicator(width, [i]), GEQ, 0.0))
  }

  /** Comparison rows: row i is the comparison `cmp[i]` over the first
      `offset` columns followed by the slack row of column `offset + i`, >= 0. */
  function ComparisonRows(width: nat, offset: nat, cmp: seq<seq<real>>): (r: seq<Constraint>)
    requires offset <= width
    requires forall i :: 0 <= i < |cmp| ==> |cmp[i]| == offset
    ensures |r| == |cmp|
  {
    seq(|cmp|, i requires 0 <= i < |cmp| => Constraint(cmp[i] + Indicator(width, [offset + i])[offset..], GEQ, 0.0))
  }

  class LPSolver {
    const ranking: Ranking
    const issues: seq<Issue>
    /** All values of the domain, issue by issue. */
    const values: seq<string>
    /** The column of each value name. */
    const valueMapper: map<string, int>
    /** S: one slack per adjacent pair of ranked bids. */
    const totalSlackCoefficients: int
    /** V: the number of values. */
    const totalValueCoefficients: int
    /** I: the number of issues. */
    const totalIssueCoefficients: int

    ghost predicate Valid()
    {
      && values == Flatten(issues)
      && valueMapper == LastIndex(values)
      && totalSlackCoefficients == |ranking.bidOrder| - 1
      && totalValueCoefficients == |values|
      && totalIssueCoefficients == |issues|
    }

    /** Numbers the values of the domain in order, issue by issue. */
    constructor(ranking: Ranking, issues: seq<Issue>)
      ensures Valid() && this.ranking == ranking && this.issues == issues
    {
      var vs: seq<string> := [];
      var mapper: map<string, int> := map[];
      var valCount := 0;
      for i := 0 to |issues|
        invariant vs == Flatten(issues[..i]) && mapper == LastIndex(vs) && valCount == |vs|
      {
        FlattenStep(issues, i);
        var issueValues := issues[i].values;
        for j := 0 to |issueValues|
          invariant vs == Flatten(issues[..i]) + issueValues[..j] && mapper == LastIndex(vs) && valCount == |vs|
        {
          PrefixExtend(issueValues, j);
          LastIndexStep(vs, issueValues[j]);
          vs := vs + [issueValues[j]];
          mapper := mapper[issueValues[j] := valCount];
          valCount := valCount + 1;
        }
        assert issueValues[..|issueValues|] == issueValues;
      }
      assert issues[..|issues|] == issues;
      this.ranking := ranking;
      this.issues := issues;
      this.values := vs;
      this.valueMapper := mapper;
      this.totalSlackCoefficients := |ranking.bidOrder| - 1;
      this.totalValueCoefficients := valCount;
      this.totalIssueCoefficients := |issues|;
    }

    /** Every value the bid chooses has a column. */
    ghost predicate Mapped(bid: Bid)
    {
      forall k :: 0 <= k < |bid| ==> bid[k].value in valueMapper
    }

    /** Every bid of the ranking, and its extreme bids, choose values of the
        domain. */
    ghost predicate RankingMapped()
    {
      && (forall n :: 0 <= n < |ranking.bidOrder| ==> Mapped(ranking.bidOrder[n]))
      && Mapped(ranking.maximalBid) && Mapped(ranking.minimalBid)
    }

    /** The bid chooses one value for each issue of the domain, in order. */
    ghost predicate Aligned(bid: Bid)
    {
      |bid| == |issues| && forall k :: 0 <= k < |bid| ==> bid[k].issueNo == issues[k].number
    }

    /** Every value the bid chooses has a solved utility. */
    ghost predicate Solvable(bid: Bid, solved: map<string, real>)
    {
      forall k :: 0 <= k < |bid| ==> bid[k].value in solved
    }

    /** The issues are numbered from 1 to I, and each has a value. */
    ghost predicate Numbered()
    {
      forall k :: 0 <= k < |issues| ==> 1 <= issues[k].number <= |issues| && issues[k].values != []
    }

    /** The columns of the values the bid chooses. */
    ghost function Columns(bid: Bid): (r: seq<int>)
      requires Mapped(bid)
      ensures |r| == |bid| && forall k :: 0 <= k < |bid| ==> r[k] == valueMapper[bid[k].value]
    {
      seq(|bid|, k requires 0 <= k < |bid| => valueMapper[bid[k].value])
    }

    /** Every value column lies below V. */
    lemma ColumnsInRange(bid: Bid)
      requires Valid() && Mapped(bid)
      ensures forall k :: 0 <= k < |bid| ==> 0 <= valueMapper[bid[k].value] < totalValueCoefficients
    {
      forall k | 0 <= k < |bid| ensures 0 <= valueMapper[bid[k].value] < totalValueCoefficients {
        LastIndexMeaning(values, bid[k].value);
      }
    }

    /** The bid's row over the value columns: 1 at the columns of its values. */
    ghost function BidRow(bid: Bid): (r: seq<real>)
      requires Valid() && Mapped(bid)
      ensures |r| == totalValueCoefficients
    {
      Indicator(totalValueCoefficients, Columns(bid))
    }

    /** `buildCoefficientRow`: a new row of `size` entries, 1 at the toggled
        indices and 0 elsewhere. */
    static method BuildCoefficientRow(size: int, toggled: seq<int>) returns (row: array<real>)
      requires size >= 0 && forall t :: t in toggled ==> 0 <= t < size
      ensures fresh(row) && row.Length == size && row[..] == Indicator(size, toggled)
      ensures forall c :: 0 <= c < size ==> row[c] == if c in toggled then 1.0 else 0.0
    {
      row := new real[size](_ => 0.0);
      for k := 0 to |toggled|
        invariant forall c :: 0 <= c < size ==> row[c] == if c in toggled[..k] then 1.0 else 0.0
      {
        assert toggled[..k + 1] == toggled[..k] + [toggled[k]];
        assert toggled[k] in toggled;
        row[toggled[k]] := 1.0;
      }
      assert toggled[..|toggled|] == toggled;
    }

    /** `System.arraycopy(src, 0, dst, 0, n)`: the first `n` entries of `dst`
        become those of `src`; the rest stay. */
    static method ArrayCopy(src: seq<real>, dst: array<real>, n: nat)
      requires n <= |src| && n <= dst.Length
      modifies dst
      ensures dst[..] == src[..n] + old(dst[..])[n..]
    {
      for k := 0 to n
        invariant dst[..] == src[..k] + old(dst[..])[k..]
      {
        dst[k] := src[k];
        assert dst[..] == src[..k + 1] + old(dst[..])[k + 1..];
      }
    }

    /** `buildBidConstraintRow`: a new row over the value columns, 1 at the
        columns of the bid's values and 0 elsewhere. */
    method BuildBidConstraintRow(bid: Bid) returns (row: array<real>)
      requires Valid() && Mapped(bid)
      ensures fresh(row) && row[..] == BidRow(bid)
      ensures forall c :: 0 <= c < row.Length ==> row[c] == if c in Columns(bid) then 1.0 else 0.0
    {
      ColumnsInRange(bid);
      row := new real[totalValueCoefficients](_ => 0.0);
      for k := 0 to |bid|
        invariant forall c :: 0 <= c < row.Length ==> row[c] == if c in Columns(bid)[..k] then 1.0 else 0.0
      {
        assert Columns(bid)[..k + 1] == Columns(bid)[..k] + [valueMapper[bid[k].value]];
        row[valueMapper[bid[k].value]] := 1.0;
      }
      assert Columns(bid)[..|bid|] == Columns(bid);
    }

    /** The comparison of a bid with the bid ranked just below it: +1 at the
        columns of its values, -1 at those of the other's, 0 where both or
        neither choose the value. */
    ghost function ValueComparison(cur: Bid, prev: Bid): (r: seq<real>)
      requires Valid() && Mapped(cur) && Mapped(prev)
      ensures |r| == totalValueCoefficients
    {
      Difference(BidRow(cur), BidRow(prev))
    }

    /** Row j compares the bid ranked j-th from the top with the bid just
        below it. */
    ghost function ValueComparisonRows(): (r: seq<seq<real>>)
      requires Valid() && RankingMapped() && |ranking.bidOrder| >= 1
      ensures |r| == |ranking.bidOrder| - 1
      ensures forall j :: 0 <= j < |r| ==> |r[j]| == totalValueCoefficients
    {
      var order := ranking.bidOrder;
      var n := |order|;
      seq(n - 1, j requires 0 <= j < n - 1 => ValueComparison(order[n - 1 - j], order[n - 2 - j]))
    }

    /** `generateBidRankingPairwiseValueComparisons`. */
    method GenerateValueComparisons() returns (cmp: seq<seq<real>>)
      requires Valid() && RankingMapped() && |ranking.bidOrder| >= 1
      ensures cmp == ValueComparisonRows()
    {
      var order := ranking.bidOrder;
      cmp := [];
      var i, j := |order| - 1, 0;
      while i > 0
        invariant 0 <= i < |order| && j == |order| - 1 - i
        invariant cmp == ValueComparisonRows()[..j]
      {
        var bid1 := BuildBidConstraintRow(order[i]);
        var bid2 := BuildBidConstraintRow(order[i - 1]);
        var row := new real[totalValueCoefficients](idx requires 0 <= idx < totalValueCoefficients reads bid1, bid2 => bid1[idx] - bid2[idx]);
        assert ValueComparisonRows()[j] == ValueComparison(order[i], order[i - 1]);
        assert forall idx :: 0 <= idx < row.Length ==> row[idx] == bid1[idx] - bid2[idx];
        assert row[..] == ValueComparisonRows()[j];
        cmp := cmp + [row[..]];
        i, j := i - 1, j + 1;
      }
    }

    /** The row of issue differences between two adjacent bids: after
        visiting the first `n` issues, the column of each visited issue's
        number, less one, holds the difference of the utilities of the two
        bids' values for it. */
    ghost function IssueRow(cur: Bid, prev: Bid, solved: map<string, real>, n: nat): (r: seq<real>)
      requires Numbered() && Aligned(cur) && Aligned(prev) && n <= |issues|
      requires Solvable(cur, solved) && Solvable(prev, solved)
      ensures |r| == |issues|
    {
      if n == 0 then Indicator(|issues|, [])
      else IssueRow(cur, prev, solved, n - 1)[issues[n - 1].number - 1 := solved[cur[n - 1].value] - solved[prev[n - 1].value]]
    }

    /** Row j compares the issue values of the bid ranked j-th from the top
        with those of the bid just below it. */
    ghost function IssueComparisonRows(solved: map<string, real>): (r: seq<seq<real>>)
      requires Valid() && Numbered() && |ranking.bidOrder| >= 1
      requires forall n :: 0 <= n < |ranking.bidOrder| ==> Aligned(ranking.bidOrder[n]) && Solvable(ranking.bidOrder[n], solved)
      ensures |r| == |ranking.bidOrder| - 1
      ensures forall j :: 0 <= j < |r| ==> |r[j]| == totalIssueCoefficients
    {
      var order := ranking.bidOrder;
      var n := |order|;
      seq(n - 1, j requires 0 <= j < n - 1 => IssueRow(order[n - 1 - j], order[n - 2 - j], solved, |issues|))
    }

    /** When no two issues share a number, the column of each issue holds the
        difference for that issue. */
    lemma {:induction false} IssueRowColumn(cur: Bid, prev: Bid, solved: map<string, real>, n: nat, k: nat)
      requires Numbered() && Aligned(cur) && Aligned(prev) && n <= |issues| && k < n
      requires Solvable(cur, solved) && Solvable(prev, solved)
      requires forall a, b :: 0 <= a < b < |issues| ==> issues[a].number != issues[b].number
      ensures IssueRow(cur, prev, solved, n)[issues[k].number - 1] == solved[cur[k].value] - solved[prev[k].value]
      decreases n
    {
      if k < n - 1 {
        IssueRowColumn(cur, prev, solved, n - 1, k);
      }
    }

    /** `generateBidRankingPairwiseIssueComparisons`. */
    method GenerateIssueComparisons(solved: map<string, real>) returns (cmp: seq<seq<real>>)
      requires Valid() && Numbered() && |ranking.bidOrder| >= 1
      requires forall n :: 0 <= n < |ranking.bidOrder| ==> Aligned(ranking.bidOrder[n]) && Solvable(ranking.bidOrder[n], solved)
      ensures cmp == IssueComparisonRows(solved)
    {
      var order := ranking.bidOrder;
      cmp := [];
      var i, j := |order| - 1, 0;
      while i > 0
        invariant 0 <= i < |order| && j == |order| - 1 - i
        invariant cmp == IssueComparisonRows(solved)[..j]
      {
        var cur, prev := order[i], order[i - 1];
        var row := new real[totalIssueCoefficients](_ => 0.0);
        for k := 0 to |issues|
          invariant row[..] == IssueRow(cur, prev, solved, k)
        {
          row[issues[k].number - 1] := solved[cur[k].value] - solved[prev[k].value];
        }
        cmp := cmp + [row[..]];
        i, j := i - 1, j + 1;
      }
    }

    /** Both objectives: ones at the columns in [V, S) of a row of V + S. */
    function Objective(): (r: seq<real>)
      requires Valid() && |ranking.bidOrder| >= 1
      ensures |r| == totalValueCoefficients + totalSlackCoefficients
    {
      Indicator(totalValueCoefficients + totalSlackCoefficients, Range(totalValueCoefficients, totalSlackCoefficients))
    }

    /** The objective sums the slack variables numbered from V on, not the
        first S slack variables, and it is all zero once there are at least
        as many values as slack variables. */
    lemma ObjectiveColumns()
      requires Valid() && |ranking.bidOrder| >= 1
      ensures forall c :: 0 <= c < |Objective()| ==>
                (Objective()[c] == 1.0 <==> totalValueCoefficients <= c < totalSlackCoefficients)
      ensures totalSlackCoefficients <= totalValueCoefficients ==> forall c :: 0 <= c < |Objective()| ==> Objective()[c] == 0.0
    {
    }

    /** The stage-one constraints: S slack rows, V nonnegativity rows, S
        comparison rows, and the maximal and minimal bid pinned to the high
        and low utility. */
    ghost function ValueConstraints(): (r: seq<Constraint>)
      requires Valid() && RankingMapped() && |ranking.bidOrder| >= 1
      ensures |r| == 2 * totalSlackCoefficients + totalValueCoefficients + 2
    {
      var width := totalValueCoefficients + totalSlackCoefficients;
      SlackRows(width, totalValueCoefficients, totalSlackCoefficients)
      + NonNegativeRows(width, totalValueCoefficients)
      + ComparisonRows(width, totalValueCoefficients, ValueComparisonRows())
      + [Constraint(BidRow(ranking.maximalBid), EQ, ranking.highUtility),
         Constraint(BidRow(ranking.minimalBid), EQ, ranking.lowUtility)]
    }

    /** The stage-two constraints: the issue weights sum to 1, then S slack
        rows, I nonnegativity rows and S comparison rows. */
    ghost function IssueConstraints(solved: map<string, real>): (r: seq<Constraint>)
      requires Valid() && Numbered() && |ranking.bidOrder| >= 1
      requires forall n :: 0 <= n < |ranking.bidOrder| ==> Aligned(ranking.bidOrder[n]) && Solvable(ranking.bidOrder[n], solved)
      ensures |r| == 1 + 2 * totalSlackCoefficients + totalIssueCoefficients
    {
      var width := totalIssueCoefficients + totalSlackCoefficients;
      [Constraint(Indicator(totalIssueCoefficients, Range(0, totalIssueCoefficients)), EQ, 1.0)]
      + SlackRows(width, totalIssueCoefficients, totalSlackCoefficients)
      + NonNegativeRows(width, totalIssueCoefficients)
      + ComparisonRows(width, totalIssueCoefficients, IssueComparisonRows(solved))
    }

    /** A comparison row is +1 at a column only the higher bid chooses, -1
        at a column only the lower bid chooses, and 0 elsewhere. */
    lemma ValueComparisonEntries(cur: Bid, prev: Bid, c: int)
      requires Valid() && Mapped(cur) && Mapped(prev) && 0 <= c < totalValueCoefficients
      ensures ValueComparison(cur, prev)[c] == 1.0 <==> c in Columns(cur) && c !in Columns(prev)
      ensures ValueComparison(cur, prev)[c] == -1.0 <==> c !in Columns(cur) && c in Columns(prev)
      ensures ValueComparison(cur, prev)[c] == 0.0 <==> (c in Columns(cur) <==> c in Columns(prev))
    {
    }

    /** The stage-one list: every row but the last two is a ">= 0" row over
        the V + S columns, and the last two pin the maximal and the minimal
        bid, over the V value columns only, to the high and low utility. */
    lemma ValueConstraintsShape()
      requires Valid() && RankingMapped() && |ranking.bidOrder| >= 1
      ensures var cs := ValueConstraints(); var n := |cs|;
              && (forall i :: 0 <= i < n - 2 ==>
                    |cs[i].coefficients| == totalValueCoefficients + totalSlackCoefficients
                    && cs[i].relationship == GEQ && cs[i].value == 0.0)
              && cs[n - 2] == Constraint(BidRow(ranking.maximalBid), EQ, ranking.highUtility)
              && cs[n - 1] == Constraint(BidRow(ranking.minimalBid), EQ, ranking.lowUtility)
    {
      var width := totalValueCoefficients + totalSlackCoefficients;
      var a := SlackRows(width, totalValueCoefficients, totalSlackCoefficients);
      var b := NonNegativeRows(width, totalValueCoefficients);
      var c := ComparisonRows(width, totalValueCoefficients, ValueComparisonRows());
      var cs := ValueConstraints();
      forall i | 0 <= i < |cs| - 2
        ensures |cs[i].coefficients| == width && cs[i].relationship == GEQ && cs[i].value == 0.0
      {
        if i < |a| {
          assert cs[i] == a[i];
        } else if i < |a| + |b| {
          assert cs[i] == b[i - |a|];
        } else {
          assert cs[i] == c[i - |a| - |b|];
        }
      }
    }

    /** `solveForValuesObj` and `solveForIssuesObj`. */
    method BuildObjective() returns (objective: seq<real>)
      requires Valid() && |ranking.bidOrder| >= 1
      ensures objective == Objective()
    {
      var row := BuildCoefficientRow(totalValueCoefficients + totalSlackCoefficients,
                                     Range(totalValueCoefficients, totalSlackCoefficients));
      objective := row[..];
    }

    /** Appends the slack rows and the nonnegativity rows of a stage. */
    static method AddBoundRows(cs0: seq<Constraint>, width: nat, offset: nat, slack: nat) returns (cs: seq<Constraint>)
      requires offset + slack <= width
      ensures cs == cs0 + SlackRows(width, offset, slack) + NonNegativeRows(width, offset)
    {
      cs := cs0;
      for i := 0 to slack
        invariant cs == cs0 + SlackRows(width, offset, slack)[..i]
      {
        var row := BuildCoefficientRow(width, [offset + i]);
        cs := cs + [Constraint(row[..], GEQ, 0.0)];
        assert SlackRows(width, offset, slack)[..i + 1] == SlackRows(width, offset, slack)[..i] + [Constraint(row[..], GEQ, 0.0)];
      }
      var base := cs;
      for i := 0 to offset
        invariant cs == base + NonNegativeRows(width, offset)[..i]
      {
        var row := BuildCoefficientRow(width, [i]);
        cs := cs + [Constraint(row[..], GEQ, 0.0)];
        assert NonNegativeRows(width, offset)[..i + 1] == NonNegativeRows(width, offset)[..i] + [Constraint(row[..], GEQ, 0.0)];
      }
      assert SlackRows(width, offset, slack)[..slack] == SlackRows(width, offset, slack);
      assert NonNegativeRows(width, offset)[..offset] == NonNegativeRows(width, offset);
    }

    /** Appends one comparison row per comparison: the slack row of its
        column with the comparison copied over the first `offset` entries. */
    static method AddComparisonRows(cs0: seq<Constraint>, width: nat, offset: nat, cmp: seq<seq<real>>) returns (cs: seq<Constraint>)
      requires offset + |cmp| <= width
      requires forall i :: 0 <= i < |cmp| ==> |cmp[i]| == offset
      ensures cs == cs0 + ComparisonRows(width, offset, cmp)
    {
      cs := cs0;
      for i := 0 to |cmp|
        invariant cs == cs0 + ComparisonRows(width, offset, cmp)[..i]
      {
        var row := BuildCoefficientRow(width, [offset + i]);
        ArrayCopy(cmp[i], row, offset);
        assert cmp[i][..offset] == cmp[i];
        cs := cs + [Constraint(row[..], GEQ, 0.0)];
        assert ComparisonRows(width, offset, cmp)[..i + 1] == ComparisonRows(width, offset, cmp)[..i] + [Constraint(row[..], GEQ, 0.0)];
      }
      assert ComparisonRows(width, offset, cmp)[..|cmp|] == ComparisonRows(width, offset, cmp);
    }

    /** The constraints `solveForValues` hands to the optimizer. */
    method BuildValueConstraints() returns (cs: seq<Constraint>)
      requires Valid() && RankingMapped() && |ranking.bidOrder| >= 1
      ensures cs == ValueConstraints()
    {
      var cmp := GenerateValueComparisons();
      var width := totalValueCoefficients + totalSlackCoefficients;
      cs := AddBoundRows([], width, totalValueCoefficients, totalSlackCoefficients);
      cs := AddComparisonRows(cs, width, totalValueCoefficients, cmp);
      var maxRow := BuildBidConstraintRow(ranking.maximalBid);
      cs := cs + [Constraint(maxRow[..], EQ, ranking.highUtility)];
      var minRow := BuildBidConstraintRow(ranking.minimalBid);
      cs := cs + [Constraint(minRow[..], EQ, ranking.lowUtility)];
    }

    /** The constraints `solveForIssues` hands to the optimizer. */
    method BuildIssueConstraints(solved: map<string, real>) returns (cs: seq<Constraint>)
      requires Valid() && Numbered() && |ranking.bidOrder| >= 1
      requires forall n :: 0 <= n < |ranking.bidOrder| ==> Aligned(ranking.bidOrder[n]) && Solvable(ranking.bidOrder[n], solved)
      ensures cs == IssueConstraints(solved)
    {
      var cmp := GenerateIssueComparisons(solved);
      var width := totalIssueCoefficients + totalSlackCoefficients;
      var sumRow := BuildCoefficientRow(totalIssueCoefficients, Range(0, totalIssueCoefficients));
      cs := AddBoundRows([Constraint(sumRow[..], EQ, 1.0)], width, totalIssueCoefficients, totalSlackCoefficients);
      cs := AddComparisonRows(cs, width, totalIssueCoefficients, cmp);
    }

    /** The utility of each value name: the entry of its column. */
    ghost function ValueSolution(point: seq<real>): map<string, real>
      requires Valid() && |point| >= totalValueCoefficients
    {
      map v | v in valueMapper :: (LastIndexMeaning(values, v); point[valueMapper[v]])
    }

    /** The weight of each issue: the entry of its number, less one. */
    ghost function IssueSolution(point: seq<real>): map<Issue, real>
      requires Numbered() && |point| >= |issues|
    {
      map i | i in issues :: point[i.number - 1]
    }

    /** Stage one: the optimal value utilities, or the empty map when the
        optimizer fails. */
    method SolveForValues(optimize: Optimizer) returns (solved: map<string, real>)
      requires Valid() && RankingMapped() && |ranking.bidOrder| >= 1 && PointsFit(optimize)
      ensures var p := optimize(Objective(), ValueConstraints());
              && (p.None? ==> solved == map[])
              && (p.Some? ==> |p.value| >= totalValueCoefficients && solved == ValueSolution(p.value))
    {
      var objective := BuildObjective();
      var constraints := BuildValueConstraints();
      var result := optimize(objective, constraints);
      solved := map[];
      if result.Some? {
        assert |result.value| == |objective| >= |values|;
        solved := ReadValueUtilities(result.value);
      }
    }

    /** Reads the utility of every value off the optimizer's point, value by
        value, so a name shared by two values gets its last column. */
    method ReadValueUtilities(point: seq<real>) returns (solved: map<string, real>)
      requires Valid() && |point| >= totalValueCoefficients
      ensures solved == ValueSolution(point)
    {
      solved := map[];
      for i := 0 to |values|
        invariant forall v :: v in LastIndex(values[..i]) ==> 0 <= LastIndex(values[..i])[v] < i
        invariant solved.Keys == LastIndex(values[..i]).Keys
        invariant forall v :: v in solved ==> solved[v] == point[LastIndex(values[..i])[v]]
      {
        PrefixExtend(values, i);
        LastIndexStep(values[..i], values[i]);
        solved := solved[values[i] := point[i]];
      }
      assert values[..|values|] == values;
    }

    /** Stage two: the optimal issue weights, or the empty map when the
        optimizer fails. */
    method SolveForIssues(optimize: Optimizer, solved: map<string, real>) returns (weights: map<Issue, real>)
      requires Valid() && Numbered() && |ranking.bidOrder| >= 1 && PointsFit(optimize)
      requires forall n :: 0 <= n < |ranking.bidOrder| ==> Aligned(ranking.bidOrder[n]) && Solvable(ranking.bidOrder[n], solved)
      ensures var p := optimize(Objective(), IssueConstraints(solved));
              && (p.None? ==> weights == map[])
              && (p.Some? ==> |p.value| >= |issues| && weights == IssueSolution(p.value))
    {
      var objective := BuildObjective();
      var constraints := BuildIssueConstraints(solved);
      var result := optimize(objective, constraints);
      weights := map[];
      if result.Some? {
        FlattenLength(issues);
        weights := ReadIssueWeights(result.value);
      }
    }

    /** Reads the weight of every issue off the optimizer's point, at the
        issue's number less one. */
    method ReadIssueWeights(point: seq<real>) returns (weights: map<Issue, real>)
      requires Numbered() && |point| >= |issues|
      ensures weights == IssueSolution(point)
    {
      weights := map[];
      for k := 0 to |issues|
        invariant weights == map i | i in issues[..k] :: point[i.number - 1]
      {
        PrefixExtend(issues, k);
        weights := weights[issues[k] := point[issues[k].number - 1]];
      }
      assert issues[..|issues|] == issues;
    }

    /** Every value of the domain gets a solved utility, so the ranking's
        bids can be compared by stage two; the map is empty exactly when the
        domain has no values. */
    lemma ValueSolutionSolves(point: seq<real>)
      requires Valid() && RankingMapped() && |point| >= totalValueCoefficients
      ensures ValueSolution(point).Keys == valueMapper.Keys
      ensures ValueSolution(point) == map[] <==> values == []
      ensures forall n :: 0 <= n < |ranking.bidOrder| ==> Solvable(ranking.bidOrder[n], ValueSolution(point))
    {
      if values != [] {
        LastIndexMeaning(values, values[0]);
        assert values[0] in ValueSolution(point);
      }
      forall n | 0 <= n < |ranking.bidOrder| ensures Solvable(ranking.bidOrder[n], ValueSolution(point)) {
        assert Mapped(ranking.bidOrder[n]);
      }
    }

    /** What the optimizer returns for stage two once stage one found
        `point`. */
    ghost function IssueStage(optimize: Optimizer, point: seq<real>): Option<seq<real>>
      requires Valid() && Numbered() && RankingMapped() && |ranking.bidOrder| >= 1
      requires forall n :: 0 <= n < |ranking.bidOrder| ==> Aligned(ranking.bidOrder[n])
      requires |point| >= totalValueCoefficients
    {
      ValueSolutionSolves(point);
      optimize(Objective(), IssueConstraints(ValueSolution(point)))
    }

    /** `solve`: stage one solves for the value utilities and stage two,
        given them, for the issue weights. A stage that fails or yields an
        empty map ends the solve, flagged as failed, with the maps found so
        far; the result is flagged as failed exactly when it has no issue
        weights. */
    method Solve(optimize: Optimizer) returns (r: LPSolverResult)
      requires Valid() && Numbered() && RankingMapped() && |ranking.bidOrder| >= 1 && PointsFit(optimize)
      requires forall n :: 0 <= n < |ranking.bidOrder| ==> Aligned(ranking.bidOrder[n])
      ensures r.failed <==> r.solvedIssues.None?
      ensures r.solvedIssues.Some? ==> r.solvedValues.Some?
      ensures var p1 := optimize(Objective(), ValueConstraints());
              && (p1.None? || values == [] ==> r == LPSolverResult(None, None, true))
              && (p1.Some? && values != [] ==>
                    && |p1.value| >= totalValueCoefficients
                    && r.solvedValues == Some(ValueSolution(p1.value))
                    && var p2 := IssueStage(optimize, p1.value);
                       && (p2.None? || issues == [] ==> r.solvedIssues.None?)
                       && (p2.Some? && issues != [] ==>
                             |p2.value| >= |issues| && r.solvedIssues == Some(IssueSolution(p2.value))))
    {
      var solvedValues := SolveForValues(optimize);
      ghost var p1 := optimize(Objective(), ValueConstraints());
      if p1.Some? {
        ValueSolutionSolves(p1.value);
      }
      if solvedValues == map[] {
        return LPSolverResult(None, None, true);
      }
      var solvedIssues := SolveForIssues(optimize, solvedValues);
      ghost var p2 := IssueStage(optimize, p1.value);
      if p2.Some? && issues != [] {
        assert issues[0] in IssueSolution(p2.value);
      }
      if solvedIssues == map[] {
        return LPSolverResult(Some(solvedValues), None, true);
      }
      if issues == [] {
        assert false;
      }
      return LPSolverResult(Some(solvedValues), Some(solvedIssues), false);
    }
  }
}
