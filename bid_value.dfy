/**
 * A flattened view of a bid: the name of the value it chooses for each
 * issue, keyed by issue name, together with a type label and a utility,
 * and the comparisons and CSV rendering the agent's analytics use.
 */
module BidValues {
  import opened Wrappers
  import opened Domains
  import opened StringOrder

  const AGENT: string := "Agent"
  const OPPONENT: string := "Opponent"
  const UNKNOWN: string := "Bid"

  /** `kind` is the type label (AGENT, OPPONENT or UNKNOWN). */
  datatype BidValue = BidValue(utility: real, kind: string, values: map<string, string>)
  {
    /** `values.get(issue)`: the value chosen for the issue, None when the
        issue is not in the map. */
    function Get(issue: string): (r: Option<string>)
      ensures r.Some? <==> issue in values
      ensures r.Some? ==> r.value == values[issue]
    {
      if issue in values then Some(values[issue]) else None
    }

    /** The bid chooses `value` for `issue`; a null issue or value is never
        included. */
    predicate IncludesIssueValue(issue: Option<string>, value: Option<string>): (r: bool)
      ensures r <==> issue.Some? && value.Some? && issue.value in values && values[issue.value] == value.value
    {
      issue.Some? && value.Some? && Get(issue.value) == value
    }

    /** The other bid chooses the same value for the issue as this one; a
        null issue or a null other bid never matches, and neither does an
        issue this bid does not name. */
    predicate IssueMatch(issue: Option<string>, other: Option<BidValue>): (r: bool)
      ensures r <==> && issue.Some? && other.Some?
                     && issue.value in values && issue.value in other.value.values
                     && other.value.values[issue.value] == values[issue.value]
    {
      issue.Some? && other.Some? && other.value.IncludesIssueValue(issue, Get(issue.value))
    }

    /** The pairs of this bid the other bid includes too. */
    ghost function Common(other: Option<BidValue>): map<string, string>
    {
      map i | i in values && other.Some? && other.value.IncludesIssueValue(Some(i), Some(values[i])) :: values[i]
    }

    /** Every pair of this bid is a pair of the other: what `equals` tests. */
    ghost predicate Covered(other: Option<BidValue>)
    {
      other.Some? && forall i :: i in values ==> other.value.IncludesIssueValue(Some(i), Some(values[i]))
    }

    /** Collects the issue / value pairs of this bid the other includes. */
    method Matches(other: Option<BidValue>) returns (m: map<string, string>)
      ensures forall i :: i in m <==> i in values && other.Some? && i in other.value.values && other.value.values[i] == values[i]
      ensures forall i :: i in m ==> m[i] == values[i]
      ensures m == Common(other)
    {
      m := map[];
      if other.Some? {
        var rest := values.Keys;
        while rest != {}
          invariant rest <= values.Keys
          invariant m == map i | i in values.Keys - rest && other.value.IncludesIssueValue(Some(i), Some(values[i])) :: values[i]
          decreases |rest|
        {
          var issue :| issue in rest;
          var value := values[issue];
          if other.value.IncludesIssueValue(Some(issue), Some(value)) {
            m := m[issue := value];
          }
          rest := rest - {issue};
        }
      }
    }

    /** The issues on which the two bids agree, in ascending name order. */
    method IssuesThatMatch(other: Option<BidValue>) returns (r: seq<string>)
      ensures Ascending(r)
      ensures forall i :: i in r <==> i in values && other.Some? && i in other.value.values && other.value.values[i] == values[i]
    {
      var m := Matches(other);
      r := Sorted(m.Keys);
    }

    /** `equals`: the other object is a bid value containing every pair of
        this one. Only one direction is tested: the other may choose values
        for issues this one does not name. */
    method Equals(o: Option<BidValue>) returns (r: bool)
      ensures r <==> Covered(o)
    {
      r := o.Some?;
      if r {
        var other := o.value;
        var rest := values.Keys;
        while rest != {}
          invariant rest <= values.Keys
          invariant r && forall i :: i in values.Keys - rest ==> other.IncludesIssueValue(Some(i), Some(values[i]))
          decreases |rest|
        {
          var issue :| issue in rest;
          r := other.IncludesIssueValue(Some(issue), Some(values[issue]));
          if !r {
            break;
          }
          rest := rest - {issue};
        }
      }
    }

    /** The issue names in ascending order: the CSV columns. */
    function Columns(): (r: seq<string>)
      ensures Ascending(r) && forall i :: i in r <==> i in values
    {
      Sorted(values.Keys)
    }

    /** The CSV header: "Type", the quoted issue names in ascending order,
        then "Utility". */
    method ToStringLabels() returns (s: string)
      ensures s == "Type" + QuotedFields(Columns()) + ",Utility"
    {
      var fields := AppendQuoted(Columns());
      s := "Type" + fields + ",Utility";
    }

    /** The CSV row: the type label, the quoted values in the order of the
        header's columns, then the utility as `render` writes it. */
    method ToString(render: real -> string) returns (s: string)
      ensures s == kind + QuotedFields(ValuesAt(values, Columns())) + "," + render(utility)
    {
      var fields := AppendQuoted(ValuesAt(values, Columns()));
      s := kind + fields + "," + render(utility);
    }
  }

  /** Appends a comma and each string, quoted, one after another. */
  method AppendQuoted(xs: seq<string>) returns (fields: string)
    ensures fields == QuotedFields(xs)
  {
    fields := "";
    for k := 0 to |xs|
      invariant fields == QuotedFields(xs[..k])
    {
      assert xs[..k + 1][..k] == xs[..k];
      fields := fields + "," + Quoted(xs[k]);
    }
    assert xs[..|xs|] == xs;
  }

  /** A string wrapped in double quotes. */
  function Quoted(s: string): string
  {
    "\"" + s + "\""
  }

  /** Each string quoted, each preceded by a comma. */
  function QuotedFields(xs: seq<string>): string
  {
    if xs == [] then "" else QuotedFields(xs[..|xs| - 1]) + "," + Quoted(xs[|xs| - 1])
  }

  /** The values the map gives the listed keys, in the same order. */
  function ValuesAt(m: map<string, string>, keys: seq<string>): (r: seq<string>)
    requires forall k :: k in keys ==> k in m
    ensures |r| == |keys| && forall j :: 0 <= j < |keys| ==> r[j] == m[keys[j]]
  {
    if keys == [] then [] else ValuesAt(m, keys[..|keys| - 1]) + [m[keys[|keys| - 1]]]
  }

  /** The issue / value pairs of a bid, each issue mapped to the value its
      last assignment chooses. */
  function Assigned(bid: Bid): map<string, string>
  {
    if bid == [] then map[]
    else Assigned(bid[..|bid| - 1])[bid[|bid| - 1].issue := bid[|bid| - 1].value]
  }

  /** An issue is in the map exactly when an assignment of the bid names it,
      and it is mapped to the value of the last such assignment. */
  lemma {:induction false} AssignedMeaning(bid: Bid, issue: string)
    ensures issue in Assigned(bid) <==> exists k :: 0 <= k < |bid| && bid[k].issue == issue
    ensures issue in Assigned(bid) ==>
              exists k :: && 0 <= k < |bid| && bid[k].issue == issue && Assigned(bid)[issue] == bid[k].value
                          && forall j :: k < j < |bid| ==> bid[j].issue != issue
    decreases |bid|
  {
    if bid != [] {
      var front := bid[..|bid| - 1];
      AssignedMeaning(front, issue);
      if bid[|bid| - 1].issue != issue && issue in Assigned(bid) {
        var k :| && 0 <= k < |front| && front[k].issue == issue && Assigned(front)[issue] == front[k].value
                 && forall j :: k < j < |front| ==> front[j].issue != issue;
        assert bid[k] == front[k];
      }
      if exists k :: 0 <= k < |bid| && bid[k].issue == issue {
        var k :| 0 <= k < |bid| && bid[k].issue == issue;
        if k < |front| {
          assert front[k] == bid[k];
        }
      }
    }
  }

  /** For a bid naming each issue once, the map holds exactly its pairs. */
  lemma AssignedSingleValued(bid: Bid, k: nat)
    requires SingleValued(bid) && k < |bid|
    ensures bid[k].issue in Assigned(bid) && Assigned(bid)[bid[k].issue] == bid[k].value
  {
    AssignedMeaning(bid, bid[k].issue);
    var j :| && 0 <= j < |bid| && bid[j].issue == bid[k].issue && Assigned(bid)[bid[k].issue] == bid[j].value
             && forall m :: j < m < |bid| ==> bid[m].issue != bid[k].issue;
  }

  /** `new BidValue(bid)`: the pairs of the bid, type "Bid", utility 0; a
      null bid gives the empty map. */
  method FromBid(bid: Option<Bid>) returns (b: BidValue)
    ensures b.kind == UNKNOWN && b.utility == 0.0
    ensures b.values == if bid.None? then map[] else Assigned(bid.value)
  {
    var m: map<string, string> := map[];
    if bid.Some? {
      var assignments := bid.value;
      for k := 0 to |assignments|
        invariant m == Assigned(assignments[..k])
      {
        assert assignments[..k + 1][..k] == assignments[..k];
        m := m[assignments[k].issue := assignments[k].value];
      }
      assert assignments[..|assignments|] == assignments;
    }
    b := BidValue(0.0, UNKNOWN, m);
  }

  /** A bid value of the agent's own bid with the given utility. */
  method CreateAgentBidValue(bid: Option<Bid>, utility: real) returns (b: BidValue)
    ensures b == BidValue(utility, AGENT, if bid.None? then map[] else Assigned(bid.value))
  {
    b := FromBid(bid);
    b := b.(kind := AGENT, utility := utility);
  }

  /** A bid value of an opponent's bid with the given utility. */
  method CreateOpponentBidValue(bid: Option<Bid>, utility: real) returns (b: BidValue)
    ensures b == BidValue(utility, OPPONENT, if bid.None? then map[] else Assigned(bid.value))
  {
    b := FromBid(bid);
    b := b.(kind := OPPONENT, utility := utility);
  }

  /** `equals` is reflexive. */
  lemma CoveredReflexive(a: BidValue)
    ensures a.Covered(Some(a))
  {
  }

  /** `equals` is transitive. */
  lemma CoveredTransitive(a: BidValue, b: BidValue, c: BidValue)
    requires a.Covered(Some(b)) && b.Covered(Some(c))
    ensures a.Covered(Some(c))
  {
    forall i | i in a.values ensures c.IncludesIssueValue(Some(i), Some(a.values[i])) {
      assert b.IncludesIssueValue(Some(i), Some(a.values[i]));
    }
  }

  /** `equals` is not symmetric: a bid with no pairs equals every bid value,
      but a bid value with a pair does not equal it. */
  lemma CoveredNotSymmetric()
    ensures BidValue(0.0, UNKNOWN, map[]).Covered(Some(BidValue(0.0, UNKNOWN, map["Food" := "Fish"])))
    ensures !BidValue(0.0, UNKNOWN, map["Food" := "Fish"]).Covered(Some(BidValue(0.0, UNKNOWN, map[])))
  {
    var full := BidValue(0.0, UNKNOWN, map["Food" := "Fish"]);
    assert !BidValue(0.0, UNKNOWN, map[]).IncludesIssueValue(Some("Food"), Some(full.values["Food"]));
  }

  /** Two bid values over the same issues agree on every issue exactly when
      each equals the other. */
  lemma CoveredBothWays(a: BidValue, b: BidValue)
    requires a.values.Keys == b.values.Keys
    ensures a.Covered(Some(b)) && b.Covered(Some(a)) <==> a.values == b.values
  {
    if a.Covered(Some(b)) {
      forall i | i in a.values ensures a.values[i] == b.values[i] {
        assert b.IncludesIssueValue(Some(i), Some(a.values[i]));
      }
    }
  }

  /** The common pairs are a part of this bid, and a part of the other. */
  lemma CommonIsShared(a: BidValue, b: BidValue)
    ensures forall i :: i in a.Common(Some(b)) ==> i in a.values && a.values[i] == a.Common(Some(b))[i]
    ensures forall i :: i in a.Common(Some(b)) ==> i in b.values && b.values[i] == a.Common(Some(b))[i]
    ensures a.Common(Some(b)) == b.Common(Some(a))
  {
  }
}
