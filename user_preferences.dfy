/**
 * A rough estimate of which issues the user cares about most, from the
 * user's bid ranking alone: for each issue, the positions in the ranking
 * of the bids choosing each of its values are gathered, each value gets
 * its mean position, and the issue is scored by the spread of those means.
 * The issues are listed in ascending order of spread.
 */
module Preferences {
  import opened SeqUtil
  import opened Domains

  /** An issue name and the spread of its values' mean positions. */
  datatype PreferencePair = PreferencePair(issueName: string, sd: real)

  /** The visit of the grouping loop to one assignment: the position of its
      bid in the ranking, its issue and its value. */
  datatype Event = Event(position: nat, issue: string, value: string)

  /** The visits for the bid at `position`, in the bid's issue order. */
  function BidEvents(position: nat, bid: Bid): (r: seq<Event>)
    ensures |r| == |bid|
    ensures forall k :: 0 <= k < |bid| ==> r[k] == Event(position, bid[k].issue, bid[k].value)
  {
    seq(|bid|, k requires 0 <= k < |bid| => Event(position, bid[k].issue, bid[k].value))
  }

  /** The visits for the whole ranking, bid after bid. */
  function Events(ranking: seq<Bid>): seq<Event>
  {
    if ranking == [] then []
    else Events(ranking[..|ranking| - 1]) + BidEvents(|ranking| - 1, ranking[|ranking| - 1])
  }

  /** The issue names visited, in order. */
  function IssuesOf(es: seq<Event>): seq<string>
  {
    if es == [] then [] else IssuesOf(es[..|es| - 1]) + [es[|es| - 1].issue]
  }

  /** The value names visited for the issue, in order. */
  function ValuesOf(es: seq<Event>, issue: string): seq<string>
  {
    if es == [] then []
    else ValuesOf(es[..|es| - 1], issue) + if es[|es| - 1].issue == issue then [es[|es| - 1].value] else []
  }

  /** The positions visited for the issue and value, in order. */
  function Positions(es: seq<Event>, issue: string, value: string): (r: seq<int>)
    ensures forall i :: 0 <= i < |r| ==> r[i] >= 0
  {
    if es == [] then []
    else
      var e := es[|es| - 1];
      Positions(es[..|es| - 1], issue, value) + if e.issue == issue && e.value == value then [e.position] else []
  }

  /** Sum of a sequence of positions. */
  function Total(ps: seq<int>): int
  {
    if ps == [] then 0 else Total(ps[..|ps| - 1]) + ps[|ps| - 1]
  }

  /** The mean of a nonempty list of positions. */
  function MeanPosition(ps: seq<int>): real
    requires ps != []
  {
    Total(ps) as real / |ps| as real
  }

  /** The key order of the outer map: issues by first visit. */
  function IssueOrder(es: seq<Event>): seq<string>
  {
    Dedup(IssuesOf(es))
  }

  /** The key order of an issue's inner map: values by first visit. */
  function ValueOrder(es: seq<Event>, issue: string): seq<string>
  {
    Dedup(ValuesOf(es, issue))
  }

  /** An issue's inner map after the visits `es`: its keys, in order, are
      the values visited with the issue, each mapped to the positions of
      those visits. */
  ghost predicate InnerGrouping(es: seq<Event>, issue: string, values: seq<string>, inner: map<string, seq<int>>)
  {
    && values == ValueOrder(es, issue)
    && (forall value :: value in inner <==> value in ValuesOf(es, issue))
    && forall value :: value in inner ==> inner[value] == Positions(es, issue, value)
  }

  /** The result of the grouping loop after the visits `es`: the outer map
      holds the visited issues, in order, each with its inner map. */
  ghost predicate Grouping(es: seq<Event>, issueOrder: seq<string>, valueOrder: map<string, seq<string>>,
                           counts: map<string, map<string, seq<int>>>)
  {
    && issueOrder == IssueOrder(es)
    && (forall issue :: issue in counts <==> issue in IssuesOf(es))
    && forall issue :: issue in counts ==> issue in valueOrder && InnerGrouping(es, issue, valueOrder[issue], counts[issue])
  }

  /** One more visit extends the visited issues by its issue. */
  lemma IssuesAppend(es: seq<Event>, e: Event)
    ensures IssuesOf(es + [e]) == IssuesOf(es) + [e.issue]
  {
    assert (es + [e])[..|es|] == es;
  }

  /** One more visit extends the values visited for its issue by its value. */
  lemma ValuesAppend(es: seq<Event>, e: Event, issue: string)
    ensures ValuesOf(es + [e], issue) == ValuesOf(es, issue) + if e.issue == issue then [e.value] else []
  {
    assert (es + [e])[..|es|] == es;
  }

  /** One more visit extends the positions of its pair by its position. */
  lemma PositionsAppend(es: seq<Event>, e: Event, issue: string, value: string)
    ensures Positions(es + [e], issue, value) ==
              Positions(es, issue, value) + if e.issue == issue && e.value == value then [e.position] else []
  {
    assert (es + [e])[..|es|] == es;
  }

  /** Putting one more element into a map adds it to the key order unless it
      is already a key. */
  lemma DedupAppend(xs: seq<string>, x: string)
    ensures Dedup(xs + [x]) == if x in xs then Dedup(xs) else Dedup(xs) + [x]
  {
    assert (xs + [x])[..|xs|] == xs;
  }

  /** A value visited for an issue has been visited at some position. */
  lemma {:induction false} VisitedHasPositions(es: seq<Event>, issue: string, value: string)
    requires value in ValuesOf(es, issue)
    ensures Positions(es, issue, value) != []
    decreases |es|
  {
    var front := es[..|es| - 1];
    var e := es[|es| - 1];
    if !(e.issue == issue && e.value == value) {
      VisitedHasPositions(front, issue, value);
    }
  }

  /** The mean positions of the issue's values, in the inner map's order. */
  function Means(es: seq<Event>, issue: string): (r: seq<real>)
    ensures |r| == |ValueOrder(es, issue)|
  {
    var order := ValueOrder(es, issue);
    seq(|order|, j requires 0 <= j < |order| => MeanOf(es, issue, order[j]))
  }

  /** The mean position of a visited value. */
  function MeanOf(es: seq<Event>, issue: string, value: string): real
  {
    if value in ValuesOf(es, issue) then
      VisitedHasPositions(es, issue, value);
      MeanPosition(Positions(es, issue, value))
    else 0.0
  }

  /** One pair per issue, in the outer map's order, before sorting. */
  function Unsorted(es: seq<Event>, spread: seq<real> -> real): (r: seq<PreferencePair>)
    ensures |r| == |IssueOrder(es)|
  {
    var order := IssueOrder(es);
    seq(|order|, j requires 0 <= j < |order| => PreferencePair(order[j], spread(Means(es, order[j]))))
  }

  /** Each pair's spread is at most the next one's. */
  ghost predicate AscendingBySpread(ps: seq<PreferencePair>)
  {
    forall i, j :: 0 <= i < j < |ps| ==> ps[i].sd <= ps[j].sd
  }

  /** Inserts `p` behind every pair whose spread is at most its own. */
  function InsertBySpread(p: PreferencePair, sorted: seq<PreferencePair>): seq<PreferencePair>
  {
    if sorted == [] then [p]
    else if sorted[0].sd <= p.sd then [sorted[0]] + InsertBySpread(p, sorted[1..])
    else [p] + sorted
  }

  lemma {:induction false} InsertBySpreadPermutes(p: PreferencePair, sorted: seq<PreferencePair>)
    ensures multiset(InsertBySpread(p, sorted)) == multiset(sorted) + multiset{p}
    decreases |sorted|
  {
    if sorted != [] {
      assert sorted == [sorted[0]] + sorted[1..];
      if sorted[0].sd <= p.sd {
        InsertBySpreadPermutes(p, sorted[1..]);
      }
    }
  }

  lemma {:induction false} InsertKeepsAscending(p: PreferencePair, sorted: seq<PreferencePair>)
    requires AscendingBySpread(sorted)
    ensures AscendingBySpread(InsertBySpread(p, sorted))
    decreases |sorted|
  {
    if sorted != [] && sorted[0].sd <= p.sd {
      var rest := InsertBySpread(p, sorted[1..]);
      InsertKeepsAscending(p, sorted[1..]);
      InsertBySpreadPermutes(p, sorted[1..]);
      forall q | q in rest ensures sorted[0].sd <= q.sd {
        assert q in multiset(rest);
        if q != p {
          assert q in multiset(sorted[1..]);
        }
      }
      assert InsertBySpread(p, sorted) == [sorted[0]] + rest;
    }
  }

  /** `List.sort(comparingDouble(sd))`: insertion of each pair in turn, a
      stable sort ascending by spread. */
  function SortBySpread(ps: seq<PreferencePair>): seq<PreferencePair>
  {
    if ps == [] then [] else InsertBySpread(ps[|ps| - 1], SortBySpread(ps[..|ps| - 1]))
  }

  /** The sort returns the same pairs, ascending by spread. */
  lemma {:induction false} SortBySpreadSorts(ps: seq<PreferencePair>)
    ensures multiset(SortBySpread(ps)) == multiset(ps)
    ensures AscendingBySpread(SortBySpread(ps))
    decreases |ps|
  {
    if ps != [] {
      var front := ps[..|ps| - 1];
      assert ps == front + [ps[|ps| - 1]];
      SortBySpreadSorts(front);
      InsertBySpreadPermutes(ps[|ps| - 1], SortBySpread(front));
      InsertKeepsAscending(ps[|ps| - 1], SortBySpread(front));
    }
  }

  /** An issue not visited yet has an empty inner map. */
  lemma FreshIssue(es: seq<Event>, issue: string)
    requires issue !in IssuesOf(es)
    ensures InnerGrouping(es, issue, [], map[])
  {
    if ValuesOf(es, issue) != [] {
      VisitedIssue(es, issue, ValuesOf(es, issue)[0]);
    }
  }

  /** A visit to another issue leaves an issue's inner map as it was. */
  lemma OtherIssue(es: seq<Event>, e: Event, issue: string, values: seq<string>, inner: map<string, seq<int>>)
    requires issue != e.issue && InnerGrouping(es, issue, values, inner)
    ensures InnerGrouping(es + [e], issue, values, inner)
  {
    ValuesAppend(es, e, issue);
    assert ValuesOf(es + [e], issue) == ValuesOf(es, issue) + [];
    assert ValuesOf(es, issue) + [] == ValuesOf(es, issue);
    forall value | value in inner ensures inner[value] == Positions(es + [e], issue, value) {
      PositionsAppend(es, e, issue, value);
    }
  }

  /** Records one visit in its issue's inner map: creates the value's list
      when missing, then appends the position. */
  method RecordValue(e: Event, ghost es: seq<Event>, values: seq<string>, inner: map<string, seq<int>>)
    returns (values': seq<string>, inner': map<string, seq<int>>)
    requires InnerGrouping(es, e.issue, values, inner)
    ensures InnerGrouping(es + [e], e.issue, values', inner')
  {
    ValuesAppend(es, e, e.issue);
    ghost var visited := ValuesOf(es + [e], e.issue);
    DedupAppend(ValuesOf(es, e.issue), e.value);
    values', inner' := values, inner;
    if e.value !in inner' {
      inner' := inner'[e.value := []];
      values' := values' + [e.value];
      assert Positions(es, e.issue, e.value) == [] by {
        if Positions(es, e.issue, e.value) != [] {
          PositionVisited(es, e.issue, e.value, Positions(es, e.issue, e.value)[0]);
        }
      }
    }
    inner' := inner'[e.value := inner'[e.value] + [e.position]];
    assert values' == ValueOrder(es + [e], e.issue);
    assert forall value :: value in inner' <==> value in visited;
    forall value | value in inner' ensures inner'[value] == Positions(es + [e], e.issue, value) {
      PositionsAppend(es, e, e.issue, value);
    }
  }

  /** Records one visit: creates the issue's inner map when missing, then
      records the visit in it. */
  method Record(e: Event, ghost es: seq<Event>, issueOrder: seq<string>, valueOrder: map<string, seq<string>>,
                counts: map<string, map<string, seq<int>>>)
    returns (issueOrder': seq<string>, valueOrder': map<string, seq<string>>, counts': map<string, map<string, seq<int>>>)
    requires Grouping(es, issueOrder, valueOrder, counts)
    ensures Grouping(es + [e], issueOrder', valueOrder', counts')
  {
    IssuesAppend(es, e);
    DedupAppend(IssuesOf(es), e.issue);
    var values: seq<string> := [];
    var inner: map<string, seq<int>> := map[];
    issueOrder' := issueOrder;
    if e.issue in counts {
      values, inner := valueOrder[e.issue], counts[e.issue];
    } else {
      issueOrder' := issueOrder' + [e.issue];
      FreshIssue(es, e.issue);
    }
    values, inner := RecordValue(e, es, values, inner);
    counts' := counts[e.issue := inner];
    valueOrder' := valueOrder[e.issue := values];
    forall issue | issue in counts'
      ensures issue in valueOrder' && InnerGrouping(es + [e], issue, valueOrder'[issue], counts'[issue])
    {
      if issue != e.issue {
        OtherIssue(es, e, issue, valueOrder[issue], counts[issue]);
      }
    }
  }

  /** A value is visited for an issue only if the issue is visited. */
  lemma {:induction false} VisitedIssue(es: seq<Event>, issue: string, value: string)
    requires value in ValuesOf(es, issue)
    ensures issue in IssuesOf(es)
    decreases |es|
  {
    var front := es[..|es| - 1];
    if es[|es| - 1].issue != issue {
      VisitedIssue(front, issue, value);
    }
  }

  /** A position is recorded for a pair only if the pair is visited. */
  lemma {:induction false} PositionVisited(es: seq<Event>, issue: string, value: string, p: int)
    requires p in Positions(es, issue, value)
    ensures value in ValuesOf(es, issue)
    decreases |es|
  {
    var front := es[..|es| - 1];
    var e := es[|es| - 1];
    if !(e.issue == issue && e.value == value) {
      PositionVisited(front, issue, value, p);
    }
  }

  /** Appending a prefix of `ys` one element at a time. */
  lemma PrefixStep<T>(xs: seq<T>, ys: seq<T>, k: nat)
    requires k <= |ys|
    ensures k == 0 ==> xs + ys[..k] == xs
    ensures 0 < k ==> xs + ys[..k] == xs + ys[..k - 1] + [ys[k - 1]]
    ensures k == |ys| ==> ys[..k] == ys
  {
    if k == 0 {
      assert xs + ys[..k] == xs;
    } else {
      assert xs + ys[..k] == xs + ys[..k - 1] + [ys[k - 1]];
    }
  }

  /** The visits for the first `i + 1` bids extend those for the first `i`. */
  lemma EventsStep(ranking: seq<Bid>, i: nat)
    requires i < |ranking|
    ensures Events(ranking[..i + 1]) == Events(ranking[..i]) + BidEvents(i, ranking[i])
  {
    assert ranking[..i + 1][..i] == ranking[..i];
  }

  /** The grouping loop: visits every assignment of every bid of the ranking,
      bid by bid. */
  method GroupPositions(ranking: seq<Bid>)
    returns (issueOrder: seq<string>, valueOrder: map<string, seq<string>>, counts: map<string, map<string, seq<int>>>)
    ensures Grouping(Events(ranking), issueOrder, valueOrder, counts)
  {
    issueOrder, valueOrder, counts := [], map[], map[];
    for i := 0 to |ranking|
      invariant Grouping(Events(ranking[..i]), issueOrder, valueOrder, counts)
    {
      var bid := ranking[i];
      ghost var es := Events(ranking[..i]);
      ghost var visits := BidEvents(i, bid);
      ghost var seen := es;
      PrefixStep(es, visits, 0);
      for k := 0 to |bid|
        invariant seen == es + visits[..k]
        invariant Grouping(seen, issueOrder, valueOrder, counts)
      {
        var e := Event(i, bid[k].issue, bid[k].value);
        issueOrder, valueOrder, counts := Record(e, seen, issueOrder, valueOrder, counts);
        seen := seen + [e];
        PrefixStep(es, visits, k + 1);
      }
      EventsStep(ranking, i);
      PrefixStep(es, visits, |bid|);
    }
    assert ranking[..|ranking|] == ranking;
  }

  /** The mean of a list of positions, summed in order. */
  method MeanOfPositions(ps: seq<int>) returns (mean: real)
    requires ps != []
    ensures mean == MeanPosition(ps)
  {
    var total := 0.0;
    for q := 0 to |ps|
      invariant total == Total(ps[..q]) as real
    {
      assert ps[..q + 1][..q] == ps[..q];
      total := total + ps[q] as real;
    }
    assert ps[..|ps|] == ps;
    mean := total / |ps| as real;
  }

  /** The means array of an issue: the mean position of each of its
      values, in the inner map's order. */
  method ComputeMeans(ghost es: seq<Event>, issue: string, values: seq<string>, inner: map<string, seq<int>>)
    returns (means: array<real>)
    requires InnerGrouping(es, issue, values, inner)
    ensures fresh(means) && means[..] == Means(es, issue)
  {
    ghost var target := Means(es, issue);
    means := new real[|values|];
    var i := 0;
    for m := 0 to |values|
      invariant i == m
      invariant means[..m] == target[..m]
    {
      var value := values[m];
      assert value in ValuesOf(es, issue);
      VisitedHasPositions(es, issue, value);
      var mean := MeanOfPositions(inner[value]);
      assert mean == target[m];
      means[i] := mean;
      i := i + 1;
    }
    assert target[..|values|] == target;
  }

  /** `calculatePreferences`: groups the ranking's positions by issue and
      value, scores each issue by `spread` of its values' mean positions,
      and sorts the pairs by score. `spread` is the sample standard
      deviation of the means. */
  method CalculatePreferences(ranking: seq<Bid>, spread: seq<real> -> real) returns (prefs: seq<PreferencePair>)
    ensures prefs == SortBySpread(Unsorted(Events(ranking), spread))
  {
    var issueOrder, valueOrder, counts := GroupPositions(ranking);
    GroupingPerIssue(Events(ranking), issueOrder, valueOrder, counts);
    var prefOrder := IssuePreferences(Events(ranking), issueOrder, valueOrder, counts, spread);
    prefs := SortBySpread(prefOrder);
  }

  /** The pair of every issue, in the outer map's order. */
  method IssuePreferences(ghost es: seq<Event>, issueOrder: seq<string>, valueOrder: map<string, seq<string>>,
                          counts: map<string, map<string, seq<int>>>, spread: seq<real> -> real)
    returns (prefOrder: seq<PreferencePair>)
    requires issueOrder == IssueOrder(es)
    requires forall issue :: issue in issueOrder ==>
               issue in valueOrder && issue in counts && InnerGrouping(es, issue, valueOrder[issue], counts[issue])
    ensures prefOrder == Unsorted(es, spread)
  {
    ghost var unsorted := Unsorted(es, spread);
    prefOrder := [];
    for j := 0 to |issueOrder|
      invariant prefOrder == unsorted[..j]
    {
      var issue := issueOrder[j];
      var pair := IssuePreference(es, issue, valueOrder[issue], counts[issue], spread);
      UnsortedAt(es, spread, j);
      assert pair == unsorted[j];
      PrefixExtend(unsorted, j);
      prefOrder := prefOrder + [pair];
    }
    assert unsorted[..|unsorted|] == unsorted;
  }

  /** Every issue of the key order has its inner map. */
  lemma GroupingPerIssue(es: seq<Event>, issueOrder: seq<string>, valueOrder: map<string, seq<string>>,
                         counts: map<string, map<string, seq<int>>>)
    requires Grouping(es, issueOrder, valueOrder, counts)
    ensures forall issue :: issue in issueOrder ==>
              issue in valueOrder && issue in counts && InnerGrouping(es, issue, valueOrder[issue], counts[issue])
  {
    forall issue | issue in issueOrder
      ensures issue in counts
    {
      var i :| 0 <= i < |issueOrder| && issueOrder[i] == issue;
      assert issue in IssuesOf(es);
    }
  }

  /** The pair at index `j` belongs to the `j`-th issue of the key order. */
  lemma UnsortedAt(es: seq<Event>, spread: seq<real> -> real, j: nat)
    requires j < |IssueOrder(es)|
    ensures Unsorted(es, spread)[j] == PreferencePair(IssueOrder(es)[j], spread(Means(es, IssueOrder(es)[j])))
  {
  }

  /** The pair of one issue: its name and the spread of its values' mean
      positions. */
  method IssuePreference(ghost es: seq<Event>, issue: string, values: seq<string>, inner: map<string, seq<int>>,
                         spread: seq<real> -> real) returns (pair: PreferencePair)
    requires InnerGrouping(es, issue, values, inner)
    ensures pair == PreferencePair(issue, spread(Means(es, issue)))
  {
    var means := ComputeMeans(es, issue, values, inner);
    pair := PreferencePair(issue, spread(means[..]));
  }

  /** A position is listed for a pair exactly when the pair is visited at
      that position. */
  lemma {:induction false} PositionsAreVisits(es: seq<Event>, issue: string, value: string, p: nat)
    ensures p in Positions(es, issue, value) <==> Event(p, issue, value) in es
    decreases |es|
  {
    if es != [] {
      var front := es[..|es| - 1];
      assert es == front + [es[|es| - 1]];
      PositionsAreVisits(front, issue, value, p);
    }
  }

  /** The ranking visits a pair at position `p` exactly when the bid at `p`
      chooses the value for the issue. */
  lemma {:induction false} VisitsOfRanking(ranking: seq<Bid>, p: nat, issue: string, value: string)
    ensures Event(p, issue, value) in Events(ranking) <==>
              p < |ranking| && exists k :: 0 <= k < |ranking[p]| && ranking[p][k].issue == issue && ranking[p][k].value == value
    decreases |ranking|
  {
    if ranking != [] {
      var n := |ranking| - 1;
      var front := ranking[..n];
      VisitsOfRanking(front, p, issue, value);
      var last := BidEvents(n, ranking[n]);
      if Event(p, issue, value) in last {
        var k :| 0 <= k < |last| && last[k] == Event(p, issue, value);
        assert ranking[p][k].issue == issue && ranking[p][k].value == value;
      }
      if p == n && exists k :: 0 <= k < |ranking[p]| && ranking[p][k].issue == issue && ranking[p][k].value == value {
        var k :| 0 <= k < |ranking[p]| && ranking[p][k].issue == issue && ranking[p][k].value == value;
        assert last[k] == Event(p, issue, value);
      }
      if p < n {
        assert front[p] == ranking[p];
      }
    }
  }

  /** Position `p` is in the list of an issue and value exactly when the bid
      at position `p` of the ranking chooses that value for that issue. */
  lemma PositionMeaning(ranking: seq<Bid>, issue: string, value: string, p: nat)
    ensures p in Positions(Events(ranking), issue, value) <==>
              p < |ranking| && exists k :: 0 <= k < |ranking[p]| && ranking[p][k].issue == issue && ranking[p][k].value == value
  {
    PositionsAreVisits(Events(ranking), issue, value, p);
    VisitsOfRanking(ranking, p, issue, value);
  }

  /** Visits come in order of position, and one position never visits an
      issue twice. */
  ghost predicate Ordered(es: seq<Event>)
  {
    forall i, j :: 0 <= i < j < |es| ==>
      es[i].position <= es[j].position && (es[i].position == es[j].position ==> es[i].issue != es[j].issue)
  }

  /** The ranking's visits are ordered when each of its bids chooses one
      value per issue, and none goes past the ranking. */
  lemma {:induction false} RankingVisitsOrdered(ranking: seq<Bid>)
    requires forall p :: 0 <= p < |ranking| ==> SingleValued(ranking[p])
    ensures Ordered(Events(ranking))
    ensures forall j :: 0 <= j < |Events(ranking)| ==> Events(ranking)[j].position < |ranking|
    decreases |ranking|
  {
    if ranking != [] {
      var n := |ranking| - 1;
      var front := ranking[..n];
      assert forall p :: 0 <= p < |front| ==> front[p] == ranking[p];
      RankingVisitsOrdered(front);
      var a := Events(front);
      var b := BidEvents(n, ranking[n]);
      var es := a + b;
      forall i, j | 0 <= i < j < |es|
        ensures es[i].position <= es[j].position && (es[i].position == es[j].position ==> es[i].issue != es[j].issue)
      {
        if j < |a| {
          assert es[i] == a[i] && es[j] == a[j];
        } else if i < |a| {
          assert es[i] == a[i] && es[j] == b[j - |a|];
        } else {
          assert es[i] == b[i - |a|] && es[j] == b[j - |a|];
        }
      }
      forall j | 0 <= j < |es| ensures es[j].position < |ranking| {
        if j < |a| {
          assert es[j] == a[j];
        }
      }
    }
  }

  /** In ordered visits each list of positions is strictly ascending. */
  lemma {:induction false} PositionsAscend(es: seq<Event>, issue: string, value: string)
    requires Ordered(es)
    ensures forall i, j :: 0 <= i < j < |Positions(es, issue, value)| ==>
              Positions(es, issue, value)[i] < Positions(es, issue, value)[j]
    decreases |es|
  {
    if es != [] {
      var front := es[..|es| - 1];
      var e := es[|es| - 1];
      PositionsAscend(front, issue, value);
      if e.issue == issue && e.value == value {
        var ps := Positions(front, issue, value);
        forall i | 0 <= i < |ps| ensures ps[i] < e.position {
          PositionsAreVisits(front, issue, value, ps[i]);
          var j :| 0 <= j < |front| && front[j] == Event(ps[i], issue, value);
          assert es[j] == front[j];
        }
      }
    }
  }

  /** Each list of positions is strictly ascending: positions are appended
      in ranking order, and a bid names each issue once. */
  lemma PositionsStrictlyAscending(ranking: seq<Bid>, issue: string, value: string)
    requires forall p :: 0 <= p < |ranking| ==> SingleValued(ranking[p])
    ensures forall i, j :: 0 <= i < j < |Positions(Events(ranking), issue, value)| ==>
              Positions(Events(ranking), issue, value)[i] < Positions(Events(ranking), issue, value)[j]
  {
    RankingVisitsOrdered(ranking);
    PositionsAscend(Events(ranking), issue, value);
  }

  lemma {:induction false} TotalBounds(ps: seq<int>, hi: int)
    requires forall i :: 0 <= i < |ps| ==> 0 <= ps[i] <= hi
    ensures 0 <= Total(ps) <= |ps| * hi
    decreases |ps|
  {
    if ps != [] {
      TotalBounds(ps[..|ps| - 1], hi);
    }
  }

  lemma DivideBound(t: int, n: int, hi: int)
    requires n > 0 && 0 <= t <= n * hi
    ensures 0.0 <= t as real / n as real <= hi as real
  {
    assert t as real <= n as real * hi as real;
  }

  /** The mean position of every value seen in the ranking lies between the
      first position, 0, and the last, N - 1. */
  lemma MeanWithinRanking(ranking: seq<Bid>, issue: string, value: string)
    requires value in ValuesOf(Events(ranking), issue)
    ensures 0.0 <= MeanOf(Events(ranking), issue, value) <= (|ranking| - 1) as real
  {
    var es := Events(ranking);
    var ps := Positions(es, issue, value);
    VisitedHasPositions(es, issue, value);
    forall i | 0 <= i < |ps| ensures 0 <= ps[i] <= |ranking| - 1 {
      assert ps[i] in ps;
      PositionMeaning(ranking, issue, value, ps[i]);
    }
    TotalBounds(ps, |ranking| - 1);
    DivideBound(Total(ps), |ps|, |ranking| - 1);
  }

  lemma Twice<T>(s: seq<T>, i: int, j: int)
    requires 0 <= i < j < |s| && s[i] == s[j]
    ensures multiset(s)[s[i]] >= 2
  {
    assert s == s[..j] + [s[j]] + s[j + 1..];
    assert s[i] in s[..j];
  }

  /** The issue names of the pairs, in order. */
  function Names(ps: seq<PreferencePair>): (r: seq<string>)
    ensures |r| == |ps| && forall i :: 0 <= i < |ps| ==> r[i] == ps[i].issueName
  {
    seq(|ps|, i requires 0 <= i < |ps| => ps[i].issueName)
  }

  /** Reordering pairs with distinct names keeps the names distinct. */
  lemma PermutedNamesDistinct(r: seq<PreferencePair>, s: seq<PreferencePair>)
    requires multiset(r) == multiset(s) && NoDuplicates(Names(s))
    ensures NoDuplicates(Names(r))
  {
    assert NoDuplicates(s) by {
      forall x, y | 0 <= x < y < |s| ensures s[x] != s[y] {
        assert Names(s)[x] != Names(s)[y];
      }
    }
    forall i, j | 0 <= i < j < |r| ensures Names(r)[i] != Names(r)[j] {
      assert r[i] in multiset(s) && r[j] in multiset(s);
      var a :| 0 <= a < |s| && s[a] == r[i];
      var b :| 0 <= b < |s| && s[b] == r[j];
      if a == b {
        Twice(r, i, j);
        MultiplicityOfDistinct(s, r[i]);
        assert false;
      }
      assert Names(s)[a] != Names(s)[b];
    }
  }

  /** Reordering pairs keeps the pairs, and so their names. */
  lemma PermutedPairs(r: seq<PreferencePair>, s: seq<PreferencePair>)
    requires multiset(r) == multiset(s)
    ensures forall q :: q in r <==> q in s
    ensures forall x :: x in Names(r) <==> x in Names(s)
  {
    forall q ensures q in r <==> q in s {
      assert q in r <==> q in multiset(r);
      assert q in s <==> q in multiset(s);
    }
    forall x | x in Names(r) ensures x in Names(s) {
      var i :| 0 <= i < |r| && Names(r)[i] == x;
      assert r[i] in s;
      var a :| 0 <= a < |s| && s[a] == r[i];
      assert Names(s)[a] == x;
    }
    forall x | x in Names(s) ensures x in Names(r) {
      var a :| 0 <= a < |s| && Names(s)[a] == x;
      assert s[a] in r;
      var i :| 0 <= i < |r| && r[i] == s[a];
      assert Names(r)[i] == x;
    }
  }

  /** Before sorting, the names are the issues in order of first visit and
      each pair is scored by the spread of its issue's means. */
  lemma UnsortedPairs(es: seq<Event>, spread: seq<real> -> real)
    ensures Names(Unsorted(es, spread)) == IssueOrder(es)
    ensures forall q :: q in Unsorted(es, spread) ==> q.sd == spread(Means(es, q.issueName))
  {
  }

  /** The preference order holds exactly one pair per issue seen in the
      ranking, each scored by the spread of that issue's mean positions,
      ascending by score. */
  lemma OnePairPerIssue(ranking: seq<Bid>, spread: seq<real> -> real)
    ensures var prefs := SortBySpread(Unsorted(Events(ranking), spread));
            && AscendingBySpread(prefs)
            && NoDuplicates(Names(prefs))
            && (forall issue :: issue in Names(prefs) <==>
                  exists p, k :: 0 <= p < |ranking| && 0 <= k < |ranking[p]| && ranking[p][k].issue == issue)
            && forall i :: 0 <= i < |prefs| ==> prefs[i].sd == spread(Means(Events(ranking), prefs[i].issueName))
  {
    var es := Events(ranking);
    var unsorted := Unsorted(es, spread);
    var prefs := SortBySpread(unsorted);
    SortBySpreadSorts(unsorted);
    UnsortedPairs(es, spread);
    PermutedNamesDistinct(prefs, unsorted);
    PermutedPairs(prefs, unsorted);
    forall issue ensures issue in Names(prefs) <==>
        exists p, k :: 0 <= p < |ranking| && 0 <= k < |ranking[p]| && ranking[p][k].issue == issue
    {
      IssueVisited(ranking, issue);
    }
    forall i | 0 <= i < |prefs| ensures prefs[i].sd == spread(Means(es, prefs[i].issueName)) {
      assert prefs[i] in unsorted;
    }
  }

  /** An issue is visited exactly when some bid of the ranking names it. */
  lemma IssueVisited(ranking: seq<Bid>, issue: string)
    ensures issue in IssuesOf(Events(ranking)) <==>
              exists p, k :: 0 <= p < |ranking| && 0 <= k < |ranking[p]| && ranking[p][k].issue == issue
  {
    var es := Events(ranking);
    IssuesAreVisits(es, issue);
    if issue in IssuesOf(es) {
      var e :| e in es && e.issue == issue;
      VisitsOfRanking(ranking, e.position, issue, e.value);
    }
    if exists p, k :: 0 <= p < |ranking| && 0 <= k < |ranking[p]| && ranking[p][k].issue == issue {
      var p, k :| 0 <= p < |ranking| && 0 <= k < |ranking[p]| && ranking[p][k].issue == issue;
      VisitsOfRanking(ranking, p, issue, ranking[p][k].value);
    }
  }

  lemma {:induction false} IssuesAreVisits(es: seq<Event>, issue: string)
    ensures issue in IssuesOf(es) <==> exists e :: e in es && e.issue == issue
    decreases |es|
  {
    if es != [] {
      var front := es[..|es| - 1];
      assert es == front + [es[|es| - 1]];
      IssuesAreVisits(front, issue);
    }
  }

  /** The user's issue preferences, computed once from the bid ranking. */
  class UserPreferences {
    const ranking: seq<Bid>
    const preferenceOrder: seq<PreferencePair>

    constructor(ranking: seq<Bid>, spread: seq<real> -> real)
      ensures this.ranking == ranking
      ensures preferenceOrder == SortBySpread(Unsorted(Events(ranking), spread))
    {
      var order := CalculatePreferences(ranking, spread);
      this.ranking := ranking;
      preferenceOrder := order;
    }
  }
}
