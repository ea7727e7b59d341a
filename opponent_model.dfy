/**
 * The frequency-based opponent model: the history of the opponent's bids,
 * one tracked issue per issue of the domain, and the totals the issue
 * weights are normalized by. Every observed bid raises the counts of the
 * values it chooses, evicts the bid that leaves the recent window from the
 * recent counts and recomputes every preference and weight. The Jonny
 * Black and Agent17 models differ only in the `variant` of their issues.
 */
module OpponentModels {
  import opened Wrappers
  import opened SeqUtil
  import opened Domains
  import opened OpponentFormulas
  import opened OpponentValues
  import opened OpponentIssues
  import opened OpponentSpec
  import opened EstimatedUtilities

  /** The recent window of a model built without one. */
  const DEFAULT_RECENT_BID_WINDOW: int := 10

  /** The confidence attached to every estimate the model makes. */
  const DEFAULT_CONFIDENCE_LEVEL: real := 1.0

  /** The names of the issues of a domain, null issues skipped. */
  function IssueNames(domain: seq<Option<Issue>>): (r: seq<string>)
    ensures forall x :: x in r <==> exists k :: 0 <= k < |domain| && domain[k].Some? && domain[k].value.name == x
  {
    if domain == [] then []
    else
      var front := IssueNames(domain[..|domain| - 1]);
      var last := domain[|domain| - 1];
      assert forall k :: 0 <= k < |domain| - 1 ==> domain[..|domain| - 1][k] == domain[k];
      if last.Some? then front + [last.value.name] else front
  }

  /** One more issue of the domain adds its name to the names met so far,
      and the deduplicated names grow as the issue map's key order does. */
  lemma IssueNamesStep(domain: seq<Option<Issue>>, k: nat)
    requires k < |domain|
    ensures domain[k].None? ==> IssueNames(domain[..k + 1]) == IssueNames(domain[..k])
    ensures domain[k].Some? ==> IssueNames(domain[..k + 1]) == IssueNames(domain[..k]) + [domain[k].value.name]
    ensures var d := Dedup(IssueNames(domain[..k]));
            Dedup(IssueNames(domain[..k + 1]))
            == if domain[k].None? || domain[k].value.name in d then d else d + [domain[k].value.name]
  {
    assert domain[..k + 1][..k] == domain[..k];
    if domain[k].Some? {
      var names := IssueNames(domain[..k]) + [domain[k].value.name];
      assert names[..|names| - 1] == IssueNames(domain[..k]);
    }
  }

  /** A tracked issue as built: all weights zero and every value unchosen. */
  ghost predicate IssueIsBlank(x: OpponentIssue)
    reads x, x.values.Values
  {
    && x.normalizedWeight == 0.0 && x.normalizedRecentWeight == 0.0
    && forall v :: v in x.values ==> x.values[v].State() == FRESH_STATE
  }

  /** A value's state with its count and recent count moved by `dc` and `dr`. */
  function Shift(s: ValueState, dc: int, dr: int): ValueState
  {
    s.(count := s.count + dc, recentCount := s.recentCount + dr)
  }

  /** A value's state with `d` fewer recent choices. */
  function Evict(s: ValueState, d: int): ValueState
  {
    s.(recentCount := s.recentCount - d)
  }

  /** How often an evicted bid (none for null) chose `value` for `issue`. */
  function Evicted(oldBid: Option<Bid>, issue: string, value: string): int
  {
    if oldBid.Some? then Occurrences(oldBid.value, issue, value) else 0
  }

  /** Counts read off the value objects are those recorded in `c` and `rc`
      as long as every value still has the count and recent count they record. */
  lemma CountsKept(issue: OpponentIssue, c: map<string, int>, rc: map<string, int>)
    requires c.Keys == issue.values.Keys && rc.Keys == issue.values.Keys
    requires forall v :: v in issue.values ==> issue.values[v].count == c[v] && issue.values[v].recentCount == rc[v]
    ensures issue.Counts() == c && issue.RecentCounts() == rc
  {
  }

  /** How far a pass over the issue order has got, and the counts over
      `priorBids` bids and the recent counts over a window of `bidWindow`
      bids it computes the estimates for. */
  datatype Progress = Progress(done: int, priorBids: int, bidWindow: int, counts: Counts, recent: Counts)

  class OpponentModel {
    const variant: Variant
    /** The issue names in the iteration order of the issue map. */
    const issueOrder: seq<string>
    const issues: map<string, OpponentIssue>
    /** Every bid observed so far, oldest first. */
    var bids: seq<Bid>
    var bidUpdates: int
    var recentBidWindow: int
    var totalUnnormalized: real
    var recentUnnormalized: real

    ghost function IssueObjects(): set<object>
    {
      set i | i in issues :: issues[i]
    }

    ghost function ValueObjects(): set<object>
    {
      set i, v | i in issues && v in issues[i].values :: issues[i].values[v]
    }

    /** The fixed structure of the model: distinct issues, each well formed,
        no object shared by two issues. */
    ghost predicate Structured()
    {
      && Keyed()
      && WellFormed(Shape())
      && IssuesSeparate()
    }

    /** The issue order lists each key of the issue map once. */
    ghost predicate Keyed()
    {
      && NoDuplicates(issueOrder)
      && (forall i :: i in issues <==> i in issueOrder)
    }

    /** Each issue is well formed, and no object is shared by two issues. */
    ghost predicate IssuesSeparate()
    {
      && (forall i :: i in issues ==> issues[i].Valid() && issues[i].variant == variant)
      && (forall i, j :: i in issues && j in issues && i != j ==>
            issues[i] != issues[j] && issues[i].values.Values !! issues[j].values.Values)
    }

    /** The issues and their values, as the specification functions see them. */
    ghost function Shape(): OpponentSpec.Shape
    {
      OpponentSpec.Shape(issueOrder, map i | i in issues :: issues[i].order)
    }

    /** The count of every value of every issue. */
    function Counts(): (c: Counts)
      reads ValueObjects()
      ensures c.Keys == issues.Keys
      ensures forall i :: i in issues ==> c[i] == issues[i].Counts()
    {
      map i | i in issues :: issues[i].Counts()
    }

    /** The recent count of every value of every issue. */
    function RecentCounts(): (c: Counts)
      reads ValueObjects()
      ensures c.Keys == issues.Keys
      ensures forall i :: i in issues ==> c[i] == issues[i].RecentCounts()
    {
      map i | i in issues :: issues[i].RecentCounts()
    }

    /** The bid names only issues of the model: each of its issues has an entry in the issue map. */
    predicate IssuesKnown(bid: Bid)
    {
      forall k :: 0 <= k < |bid| ==> bid[k].issue in issues
    }

    /** Some assignment of the bid names a value the model tracks. */
    ghost predicate ChoosesKnownValue(bid: Bid)
    {
      exists k :: 0 <= k < |bid| && bid[k].issue in issues && bid[k].value in issues[bid[k].issue].values
    }

    /** Every count is the number of bids of the history choosing the value,
        and every recent count the number of those among the last
        `recentBidWindow` bids. */
    ghost predicate CountsFollowHistory()
      requires recentBidWindow >= 0
      reads this, ValueObjects()
    {
      forall i, v :: i in issues && v in issues[i].values ==>
        && issues[i].values[v].count == Tally(bids, i, v)
        && issues[i].values[v].recentCount == Tally(Window(bids, recentBidWindow), i, v)
    }

    /** Before the first bid every normalized weight is still zero. */
    ghost predicate Blank()
      reads IssueObjects()
    {
      forall i :: i in issues ==> issues[i].normalizedWeight == 0.0 && issues[i].normalizedRecentWeight == 0.0
    }

    /** Every stored preference and weight is the one the formulas give for
        the current counts, and the issue weights are normalized by totals
        that are not zero. */
    ghost predicate Estimated()
      requires Structured()
      reads this, IssueObjects(), ValueObjects()
    {
      && bidUpdates != 0 && recentBidWindow != 0
      && totalUnnormalized == TotalWeight(Shape(), Counts(), bidUpdates) != 0.0
      && recentUnnormalized == TotalWeight(Shape(), RecentCounts(), recentBidWindow) != 0.0
      && forall i :: i in issues ==>
           && issues[i].EstimatesAre(bidUpdates, recentBidWindow, issues[i].Counts(), issues[i].RecentCounts())
           && issues[i].normalizedWeight == issues[i].unnormalizedWeight / totalUnnormalized
           && issues[i].normalizedRecentWeight == issues[i].unnormalizedRecentWeight / recentUnnormalized
    }

    /** The history and the counts agree: every bid observed is counted, and
        the recent counts cover the window. */
    ghost predicate Tracked()
      reads this, ValueObjects()
    {
      && Structured()
      && bidUpdates == |bids|
      && recentBidWindow >= 1
      && (forall k :: 0 <= k < |bids| ==> SingleValued(bids[k]) && IssuesKnown(bids[k]))
      && CountsFollowHistory()
    }

    ghost predicate Valid()
      reads this, IssueObjects(), ValueObjects()
    {
      && Tracked()
      && (if bids == [] then Blank() else Estimated())
    }

    /** A map of tracked issues as the constructor builds it: keyed by the
        issues' names in `order`, each issue blank, no object shared. */
    static ghost predicate IssueMapBuilt(m: map<string, OpponentIssue>, order: seq<string>, variant: Variant)
      reads set i | i in m :: m[i]
      reads set i, v | i in m && v in m[i].values :: m[i].values[v]
    {
      && (forall i :: i in m <==> i in order)
      && (forall i :: i in m ==> m[i].Valid() && m[i].variant == variant && m[i].name == i && IssueIsBlank(m[i]))
      && (forall i, j :: i in m && j in m && i != j ==> m[i] != m[j] && m[i].values.Values !! m[j].values.Values)
    }

    /** One step of the issue-map loop: a fresh tracked issue is put under
        the issue's name. */
    static method PutIssue(variant: Variant, m: map<string, OpponentIssue>, order: seq<string>, issue: Issue)
      returns (m': map<string, OpponentIssue>, order': seq<string>)
      requires IssueMapBuilt(m, order, variant)
      ensures IssueMapBuilt(m', order', variant)
      ensures order' == if issue.name in order then order else order + [issue.name]
      ensures issue.name in m' && fresh(m'[issue.name]) && fresh(m'[issue.name].values.Values)
      ensures forall i :: i in m' && i != issue.name ==> i in m && m'[i] == m[i]
    {
      var tracked := new OpponentIssue(variant, issue);
      assert tracked.Valid() && tracked.variant == variant && tracked.name == issue.name && IssueIsBlank(tracked);
      assert forall j :: j in m ==> m[j] != tracked && m[j].values.Values !! tracked.values.Values;
      m' := m[issue.name := tracked];
      order' := if issue.name in order then order else order + [issue.name];
    }

    /** Builds one tracked issue per non-null issue of the domain; an issue
        whose name was seen before replaces the earlier one. */
    static method CreateIssueMap(variant: Variant, domain: seq<Option<Issue>>)
      returns (m: map<string, OpponentIssue>, order: seq<string>)
      ensures order == Dedup(IssueNames(domain))
      ensures IssueMapBuilt(m, order, variant)
      ensures forall i :: i in m ==> fresh(m[i])
    {
      m := map[];
      order := [];
      for k := 0 to |domain|
        invariant order == Dedup(IssueNames(domain[..k]))
        invariant IssueMapBuilt(m, order, variant)
        invariant forall i :: i in m ==> fresh(m[i])
      {
        IssueNamesStep(domain, k);
        if domain[k].Some? {
          ghost var before := m;
          m, order := PutIssue(variant, m, order, domain[k].value);
          forall i | i in m ensures fresh(m[i]) {
            if i != domain[k].value.name {
              assert m[i] == before[i];
            }
          }
        }
      }
      assert domain[..|domain|] == domain;
    }

    /** A model of the domain (no issues for a null domain) with an empty
        history. */
    constructor (variant: Variant, domain: Option<seq<Option<Issue>>>, recentBidWindow: int)
      requires recentBidWindow >= 1
      ensures Valid()
      ensures this.variant == variant && this.recentBidWindow == recentBidWindow
      ensures bids == []
      ensures domain.None? ==> issues == map[]
      ensures domain.Some? ==> issueOrder == Dedup(IssueNames(domain.value))
      ensures forall i :: i in issues ==> issues[i].name == i
      ensures fresh(IssueObjects())
    {
      var m: map<string, OpponentIssue> := map[];
      var order: seq<string> := [];
      if domain.Some? {
        m, order := CreateIssueMap(variant, domain.value);
      }
      this.variant := variant;
      this.issues := m;
      this.issueOrder := order;
      this.bids := [];
      this.bidUpdates := 0;
      this.recentBidWindow := recentBidWindow;
      this.totalUnnormalized := 0.0;
      this.recentUnnormalized := 0.0;
      new;
      assert Structured();
    }

    /** The bid that has to leave the recent counts once the latest bid has
        been added: the oldest bid of the window as it was before, if the
        history has outgrown the window. */
    function FindOldBid(): (r: Option<Bid>)
      requires recentBidWindow >= 1
      reads this
      ensures r.Some? <==> |bids| > recentBidWindow
      ensures r.Some? ==> r.value == Window(bids[..|bids| - 1], recentBidWindow)[0]
    {
      if |bids| > recentBidWindow then
        assert bids[..|bids| - 1][|bids| - 1 - recentBidWindow] == bids[|bids| - recentBidWindow - 1];
        Some(bids[|bids| - recentBidWindow - 1])
      else None
    }

    /** Counts each value the bid chooses once more, in total and recently. */
    method UpdateIssuesFromBid(bid: Bid)
      requires IssuesSeparate() && IssuesKnown(bid)
      modifies ValueObjects()
      ensures bids == old(bids) && bidUpdates == old(bidUpdates) && recentBidWindow == old(recentBidWindow)
      ensures forall i, v :: i in issues && v in issues[i].values ==>
                issues[i].values[v].State()
                == Shift(old(issues[i].values[v].State()), Occurrences(bid, i, v), Occurrences(bid, i, v))
    {
      for k := 0 to |bid|
        invariant bids == old(bids) && bidUpdates == old(bidUpdates) && recentBidWindow == old(recentBidWindow)
        invariant forall i, v :: i in issues && v in issues[i].values ==>
                    issues[i].values[v].State()
                    == Shift(old(issues[i].values[v].State()), Occurrences(bid[..k], i, v), Occurrences(bid[..k], i, v))
      {
        assert bid[..k + 1][..k] == bid[..k];
        CountAssignment(bid[k]);
      }
      assert bid[..|bid|] == bid;
    }

    /** One round of UpdateIssuesFromBid: the value the assignment chooses
        counts once more. */
    method CountAssignment(a: Assignment)
      requires IssuesSeparate() && a.issue in issues
      modifies ValueObjects()
      ensures bids == old(bids) && bidUpdates == old(bidUpdates) && recentBidWindow == old(recentBidWindow)
      ensures forall i, v :: i in issues && v in issues[i].values ==>
                issues[i].values[v].State()
                == Shift(old(issues[i].values[v].State()), Occurrences([a], i, v), Occurrences([a], i, v))
    {
      issues[a.issue].IncrementValueCount(a.value);
      forall i, v | i in issues && v in issues[i].values
        ensures issues[i].values[v].State()
                == Shift(old(issues[i].values[v].State()), Occurrences([a], i, v), Occurrences([a], i, v))
      {
        assert [a][..0] == [];
        if i != a.issue {
          assert issues[i].values[v] in issues[i].values.Values;
        }
      }
    }

    /** Forgets, from the recent counts only, each value an old bid chose;
        no bid (null) changes nothing. */
    method DecreaseRecentIssueCountsFromOldBid(oldBid: Option<Bid>)
      requires IssuesSeparate()
      requires oldBid.Some? ==> IssuesKnown(oldBid.value)
      modifies ValueObjects()
      ensures bids == old(bids) && bidUpdates == old(bidUpdates) && recentBidWindow == old(recentBidWindow)
      ensures forall i, v :: i in issues && v in issues[i].values ==>
                issues[i].values[v].State() == Evict(old(issues[i].values[v].State()), Evicted(oldBid, i, v))
    {
      if oldBid.Some? {
        DecrementRecentCounts(oldBid.value);
      }
    }

    /** The loop of DecreaseRecentIssueCountsFromOldBid over a non-null bid. */
    method DecrementRecentCounts(bid: Bid)
      requires IssuesSeparate() && IssuesKnown(bid)
      modifies ValueObjects()
      ensures bids == old(bids) && bidUpdates == old(bidUpdates) && recentBidWindow == old(recentBidWindow)
      ensures forall i, v :: i in issues && v in issues[i].values ==>
                issues[i].values[v].State() == Evict(old(issues[i].values[v].State()), Occurrences(bid, i, v))
    {
      for k := 0 to |bid|
        invariant bids == old(bids) && bidUpdates == old(bidUpdates) && recentBidWindow == old(recentBidWindow)
        invariant forall i, v :: i in issues && v in issues[i].values ==>
                    issues[i].values[v].State() == Evict(old(issues[i].values[v].State()), Occurrences(bid[..k], i, v))
      {
        assert bid[..k + 1][..k] == bid[..k];
        var a := bid[k];
        var issue := issues[a.issue];
        label before:
        issue.DecrementValueRecentCount(a.value);
        forall i, v | i in issues && v in issues[i].values
          ensures issues[i].values[v].State()
                  == Evict(old@before(issues[i].values[v].State()), if i == a.issue && v == a.value then 1 else 0)
        {
          if i != a.issue {
            assert issues[i].values[v] in issues[i].values.Values;
          }
        }
      }
      assert bid[..|bid|] == bid;
    }

    /** Once the history is longer than the window, the bid that left the
        window leaves the recent counts. */
    method RemoveOldBidFromRecentCounts()
      requires IssuesSeparate() && recentBidWindow >= 1
      requires forall k :: 0 <= k < |bids| ==> IssuesKnown(bids[k])
      modifies ValueObjects()
      ensures bids == old(bids) && bidUpdates == old(bidUpdates) && recentBidWindow == old(recentBidWindow)
      ensures forall i, v :: i in issues && v in issues[i].values ==>
                issues[i].values[v].State()
                == Evict(old(issues[i].values[v].State()), Evicted(FindOldBid(), i, v))
    {
      if |bids| > recentBidWindow {
        var oldBid := FindOldBid();
        DecreaseRecentIssueCountsFromOldBid(oldBid);
      }
    }

    /** The issues are separate and the issue order names each of them at most once. */
    ghost predicate Arranged()
    {
      IssuesSeparate() && NoDuplicates(issueOrder) && forall i :: i in issueOrder ==> i in issues
    }

    /** `c` and `rc` have an entry for every issue. */
    ghost predicate CountsKeyed(c: Counts, rc: Counts)
    {
      c.Keys == issues.Keys && rc.Keys == issues.Keys
    }

    /** `c` and `rc` are the counts and recent counts of the issues. */
    ghost predicate CountsAre(c: Counts, rc: Counts)
      reads ValueObjects()
    {
      && CountsKeyed(c, rc)
      && forall i :: i in issues ==> issues[i].Counts() == c[i] && issues[i].RecentCounts() == rc[i]
    }

    /** The first `n` issues of the issue order hold the estimates for the
        counts `c` over `priorBids` bids and the recent counts `rc` over a
        window of `bidWindow` bids. */
    ghost predicate EstimatedUpTo(n: int, priorBids: int, bidWindow: int, c: Counts, rc: Counts)
      requires Arranged() && CountsKeyed(c, rc) && priorBids != 0 && bidWindow != 0
      reads IssueObjects(), ValueObjects()
    {
      forall j :: 0 <= j < n && j < |issueOrder| ==>
        issues[issueOrder[j]].EstimatesAre(priorBids, bidWindow, c[issueOrder[j]], rc[issueOrder[j]])
    }

    /** The pass `p` is done: the issues hold the counts of `p`, and its
        first `p.done` issues the estimates for them. */
    ghost predicate Reached(p: Progress)
      reads IssueObjects(), ValueObjects()
    {
      && Arranged() && CountsKeyed(p.counts, p.recent) && p.priorBids != 0 && p.bidWindow != 0
      && CountsAre(p.counts, p.recent)
      && EstimatedUpTo(p.done, p.priorBids, p.bidWindow, p.counts, p.recent)
    }

    /** The pass `p` is done and the stored totals are the sums, over the
        issue order, of the unnormalized weights for its counts. */
    ghost predicate Weighed(p: Progress)
      reads this, IssueObjects(), ValueObjects()
    {
      && Reached(p)
      && totalUnnormalized == WeightSum(IssueWeights(p.counts, p.priorBids), issueOrder)
      && recentUnnormalized == WeightSum(IssueWeights(p.recent, p.bidWindow), issueOrder)
    }

    /** Every normalized weight is the unnormalized one divided by a total
        that is not zero. */
    ghost predicate Normalized()
      reads this, IssueObjects()
    {
      && totalUnnormalized != 0.0 && recentUnnormalized != 0.0
      && forall i :: i in issues ==>
           && issues[i].normalizedWeight == issues[i].unnormalizedWeight / totalUnnormalized
           && issues[i].normalizedRecentWeight == issues[i].unnormalizedRecentWeight / recentUnnormalized
    }

    /** Recomputes every issue's preferences and unnormalized weights from
        the counts `c` and recent counts `rc` the issues hold, and stores the
        totals the weights are normalized by. */
    method UpdatePreferencesAndUnnormalizedWeights(ghost c: Counts, ghost rc: Counts)
      requires Arranged() && bidUpdates != 0 && recentBidWindow >= 1 && CountsAre(c, rc)
      modifies this`totalUnnormalized, this`recentUnnormalized, IssueObjects(), ValueObjects()
      ensures bids == old(bids) && bidUpdates == old(bidUpdates) && recentBidWindow == old(recentBidWindow)
      ensures Weighed(Progress(|issueOrder|, bidUpdates, recentBidWindow, c, rc))
    {
      var total, recentTotal := UpdateEveryIssue(c, rc);
      label computed:
      totalUnnormalized := total;
      recentUnnormalized := recentTotal;
      EstimatesKept@computed(Progress(|issueOrder|, bidUpdates, recentBidWindow, c, rc));
    }

    /** The loop of UpdatePreferencesAndUnnormalizedWeights: every issue in
        turn gets its estimates; returns the sums of the unnormalized weights
        and recent weights. */
    method UpdateEveryIssue(ghost c: Counts, ghost rc: Counts) returns (total: real, recentTotal: real)
      requires Arranged() && bidUpdates != 0 && recentBidWindow >= 1 && CountsAre(c, rc)
      modifies IssueObjects(), ValueObjects()
      ensures bids == old(bids) && bidUpdates == old(bidUpdates) && recentBidWindow == old(recentBidWindow)
      ensures Reached(Progress(|issueOrder|, bidUpdates, recentBidWindow, c, rc))
      ensures total == WeightSum(IssueWeights(c, bidUpdates), issueOrder)
      ensures recentTotal == WeightSum(IssueWeights(rc, recentBidWindow), issueOrder)
    {
      ghost var weights, recentWeights := IssueWeights(c, bidUpdates), IssueWeights(rc, recentBidWindow);
      total, recentTotal := 0.0, 0.0;
      for k := 0 to |issueOrder|
        invariant bids == old(bids) && bidUpdates == old(bidUpdates) && recentBidWindow == old(recentBidWindow)
        invariant Reached(Progress(k, bidUpdates, recentBidWindow, c, rc))
        invariant total == WeightSum(weights, issueOrder[..k])
        invariant recentTotal == WeightSum(recentWeights, issueOrder[..k])
      {
        WeightSumStep(weights, issueOrder, k);
        WeightSumStep(recentWeights, issueOrder, k);
        var w, r := UpdateIssueAt(k, c, rc);
        total := total + w;
        recentTotal := recentTotal + r;
      }
      assert issueOrder[..|issueOrder|] == issueOrder;
    }

    /** One round of UpdatePreferencesAndUnnormalizedWeights: the issue at
        position `k` gets its estimates, every other issue keeps its own. */
    method UpdateIssueAt(k: nat, ghost c: Counts, ghost rc: Counts) returns (w: real, r: real)
      requires recentBidWindow >= 1 && k < |issueOrder| && Reached(Progress(k, bidUpdates, recentBidWindow, c, rc))
      modifies issues[issueOrder[k]], issues[issueOrder[k]].values.Values
      ensures bids == old(bids) && bidUpdates == old(bidUpdates) && recentBidWindow == old(recentBidWindow)
      ensures Reached(Progress(k + 1, bidUpdates, recentBidWindow, c, rc))
      ensures w == IssueWeights(c, bidUpdates)[issueOrder[k]]
      ensures r == IssueWeights(rc, recentBidWindow)[issueOrder[k]]
    {
      var name := issueOrder[k];
      var issue := issues[name];
      label before:
      w, r := UpdateIssueEstimates(issue);
      CountsKept(issue, c[name], rc[name]);
      forall i | i in issues && i != name
        ensures unchanged(issues[i]) && unchanged(issues[i].values.Values)
      {
        assert issues[i] != issue && issues[i].values.Values !! issue.values.Values;
      }
      ghost var p := Progress(k, bidUpdates, recentBidWindow, c, rc);
      OthersCountsKept@before(p);
      OthersEstimatesKept@before(p);
    }

    /** When only the issue at position `p.done` and its values changed,
        and that issue holds the counts of `p`, every issue does. */
    twostate lemma OthersCountsKept(p: Progress)
      requires CountsKeyed(p.counts, p.recent) && 0 <= p.done < |issueOrder|
      requires forall i :: i in issues && i != issueOrder[p.done] ==> unchanged(issues[i].values.Values)
      requires old(CountsAre(p.counts, p.recent))
      requires issueOrder[p.done] in issues
      requires issues[issueOrder[p.done]].Counts() == p.counts[issueOrder[p.done]]
      requires issues[issueOrder[p.done]].RecentCounts() == p.recent[issueOrder[p.done]]
      ensures CountsAre(p.counts, p.recent)
    {
      forall i | i in issues && i != issueOrder[p.done]
        ensures issues[i].Counts() == p.counts[i] && issues[i].RecentCounts() == p.recent[i]
      {
        assert old(issues[i].Counts() == p.counts[i] && issues[i].RecentCounts() == p.recent[i]);
      }
    }

    /** When only the issue at position `p.done` and its values changed,
        and that issue holds the estimates for the counts of `p`, the first
        `p.done + 1` issues hold them. */
    twostate lemma OthersEstimatesKept(p: Progress)
      requires Arranged() && CountsKeyed(p.counts, p.recent) && p.priorBids != 0 && p.bidWindow != 0
      requires 0 <= p.done < |issueOrder|
      requires forall i :: i in issues && i != issueOrder[p.done] ==>
                 unchanged(issues[i]) && unchanged(issues[i].values.Values)
      requires old(EstimatedUpTo(p.done, p.priorBids, p.bidWindow, p.counts, p.recent))
      requires issues[issueOrder[p.done]].EstimatesAre(p.priorBids, p.bidWindow,
                 p.counts[issueOrder[p.done]], p.recent[issueOrder[p.done]])
      ensures EstimatedUpTo(p.done + 1, p.priorBids, p.bidWindow, p.counts, p.recent)
    {
      forall j | 0 <= j < p.done
        ensures issues[issueOrder[j]].EstimatesAre(p.priorBids, p.bidWindow, p.counts[issueOrder[j]], p.recent[issueOrder[j]])
      {
        assert issueOrder[j] != issueOrder[p.done];
        assert old(issues[issueOrder[j]].EstimatesAre(p.priorBids, p.bidWindow, p.counts[issueOrder[j]], p.recent[issueOrder[j]]));
      }
    }

    /** The unnormalized weight of every issue for the given counts. */
    ghost function IssueWeights(c: Counts, denom: int): (w: map<string, real>)
      requires denom != 0
      ensures w.Keys == issues.Keys
    {
      map i | i in issues :: IssueWeight(issues[i].order, Row(c, i), denom)
    }

    /** The weights the model sums are those of the specification. */
    lemma IssueWeightsAreSpecified(c: Counts, denom: int)
      requires denom != 0
      ensures IssueWeights(c, denom) == Weights(Shape(), c, denom)
    {
    }

    /** One round of the loop of UpdatePreferencesAndUnnormalizedWeights:
        the issue's preferences, then its unnormalized weight and recent
        weight, each returned for the totals. */
    method UpdateIssueEstimates(issue: OpponentIssue) returns (w: real, r: real)
      requires issue.Valid() && bidUpdates != 0 && recentBidWindow >= 1
      modifies issue, issue.values.Values
      ensures bids == old(bids) && bidUpdates == old(bidUpdates) && recentBidWindow == old(recentBidWindow)
      ensures forall v :: v in issue.values ==>
                issue.values[v].count == old(issue.values[v].count)
                && issue.values[v].recentCount == old(issue.values[v].recentCount)
      ensures issue.EstimatesAre(bidUpdates, recentBidWindow, old(issue.Counts()), old(issue.RecentCounts()))
      ensures w == issue.unnormalizedWeight && r == issue.unnormalizedRecentWeight
    {
      ghost var c, rc := issue.Counts(), issue.RecentCounts();
      issue.UpdatePreferenceValues(bidUpdates, recentBidWindow);
      CountsKept(issue, c, rc);
      w := issue.CalculateUnnormalizedWeight(bidUpdates);
      CountsKept(issue, c, rc);
      r := issue.CalculateUnnormalizedRecentWeight(recentBidWindow);
    }

    /** Divides every issue's unnormalized weights by the totals. */
    method UpdateNormalizedWeights()
      requires IssuesSeparate() && forall i :: i in issues ==> i in issueOrder
      requires totalUnnormalized != 0.0 && recentUnnormalized != 0.0
      modifies IssueObjects()
      ensures bids == old(bids) && bidUpdates == old(bidUpdates) && recentBidWindow == old(recentBidWindow)
      ensures WeightsKept() && Normalized()
    {
      for k := 0 to |issueOrder|
        invariant bids == old(bids) && bidUpdates == old(bidUpdates) && recentBidWindow == old(recentBidWindow)
        invariant WeightsKept()
        invariant forall i :: i in issueOrder[..k] && i in issues ==>
                    && issues[i].normalizedWeight == issues[i].unnormalizedWeight / totalUnnormalized
                    && issues[i].normalizedRecentWeight == issues[i].unnormalizedRecentWeight / recentUnnormalized
      {
        var name := issueOrder[k];
        assert issueOrder[..k + 1] == issueOrder[..k] + [name];
        if name in issues {
          var issue := issues[name];
          var w := issue.CalculateNormalizedWeight(totalUnnormalized);
          var r := issue.CalculateNormalizedRecentWeight(recentUnnormalized);
        }
      }
      assert issueOrder[..|issueOrder|] == issueOrder;
    }
  
    /** Recomputes every preference and weight from the current counts:
        first the preferences and unnormalized weights with their totals,
        then the normalized weights. */
    method RecalculateModelEstimates()
      requires Structured() && bidUpdates != 0 && recentBidWindow >= 1
      requires TotalWeight(Shape(), Counts(), bidUpdates) != 0.0
      requires TotalWeight(Shape(), RecentCounts(), recentBidWindow) != 0.0
      modifies this`totalUnnormalized, this`recentUnnormalized, IssueObjects(), ValueObjects()
      ensures bids == old(bids) && bidUpdates == old(bidUpdates) && recentBidWindow == old(recentBidWindow)
      ensures Counts() == old(Counts()) && RecentCounts() == old(RecentCounts())
      ensures Estimated()
    {
      ghost var p := Progress(|issueOrder|, bidUpdates, recentBidWindow, Counts(), RecentCounts());
      IssueWeightsAreSpecified(p.counts, bidUpdates);
      IssueWeightsAreSpecified(p.recent, recentBidWindow);
      UpdatePreferencesAndUnnormalizedWeights(p.counts, p.recent);
      label weighed:
      UpdateNormalizedWeights();
      WeighingKept@weighed(p);
      EstimatedFromParts(p);
    }

    /** No value and no unnormalized weight changed since the previous state. */
    twostate predicate UnnormalizedKept()
      reads IssueObjects(), ValueObjects()
    {
      && unchanged(ValueObjects())
      && forall i :: i in issues ==>
           && issues[i].unnormalizedWeight == old(issues[i].unnormalizedWeight)
           && issues[i].unnormalizedRecentWeight == old(issues[i].unnormalizedRecentWeight)
    }

    /** Nor did the totals change. */
    twostate predicate WeightsKept()
      reads this, IssueObjects(), ValueObjects()
    {
      && UnnormalizedKept()
      && totalUnnormalized == old(totalUnnormalized) && recentUnnormalized == old(recentUnnormalized)
    }

    /** A change that keeps the values and the totals keeps the totals a
        pass has weighed. */
    twostate lemma WeighingKept(p: Progress)
      requires WeightsKept() && old(Weighed(p))
      ensures Weighed(p)
    {
      EstimatesKept(p);
    }

    /** A change that leaves the values and the unnormalized weights alone
        (normalizing the weights, storing the totals) keeps every count and
        estimate a pass has reached. */
    twostate lemma EstimatesKept(p: Progress)
      requires UnnormalizedKept() && old(Reached(p))
      ensures Reached(p)
    {
      var c, rc := p.counts, p.recent;
      forall i | i in issues
        ensures issues[i].Counts() == c[i] && issues[i].RecentCounts() == rc[i]
      {
        assert unchanged(issues[i].values.Values);
      }
      forall j | 0 <= j < p.done && j < |issueOrder|
        ensures issues[issueOrder[j]].EstimatesAre(p.priorBids, p.bidWindow, c[issueOrder[j]], rc[issueOrder[j]])
      {
        var issue := issues[issueOrder[j]];
        assert unchanged(issue.values.Values);
        assert old(issue.EstimatesAre(p.priorBids, p.bidWindow, c[issueOrder[j]], rc[issueOrder[j]]));
      }
    }

    /** Counts that every issue holds are the model's counts. */
    lemma CountsAreCurrent(c: Counts, rc: Counts)
      requires CountsAre(c, rc)
      ensures c == Counts() && rc == RecentCounts()
    {
      var now, recentNow := Counts(), RecentCounts();
      assert forall i :: i in c ==> c[i] == now[i];
      assert forall i :: i in rc ==> rc[i] == recentNow[i];
    }

    /** Estimates held issue by issue, totals summed over the issue order and
        weights divided by them make up Estimated(). */
    lemma EstimatedFromParts(p: Progress)
      requires Structured() && p.done == |issueOrder|
      requires p.priorBids == bidUpdates && p.bidWindow == recentBidWindow
      requires Weighed(p) && Normalized()
      ensures p.counts == Counts() && p.recent == RecentCounts()
      ensures Estimated()
    {
      CountsAreCurrent(p.counts, p.recent);
      IssueWeightsAreSpecified(p.counts, bidUpdates);
      IssueWeightsAreSpecified(p.recent, recentBidWindow);
      forall i | i in issues
        ensures issues[i].EstimatesAre(bidUpdates, recentBidWindow, issues[i].Counts(), issues[i].RecentCounts())
      {
        var j := IndexOf(issueOrder, i);
      }
    }

    /** Observes one more bid of the opponent: it joins the history, its
        values count once more in total and recently, the bid that left the
        recent window stops counting recently, and every estimate is
        recomputed. */
    method Update(bid: Bid)
      requires Valid() && SingleValued(bid) && IssuesKnown(bid) && ChoosesKnownValue(bid)
      modifies this`bids, this`bidUpdates, this`totalUnnormalized, this`recentUnnormalized
      modifies IssueObjects(), ValueObjects()
      ensures Valid()
      ensures bids == old(bids) + [bid] && recentBidWindow == old(recentBidWindow)
    {
      RecordBid(bid);
      label tallied:
      TotalsPositive();
      RecalculateModelEstimates();
      TrackingKept@tallied();
    }

    /** Recomputing the estimates leaves the history and the counts, so the
        model still tracks the history. */
    twostate lemma TrackingKept()
      requires old(Tracked())
      requires bids == old(bids) && bidUpdates == old(bidUpdates) && recentBidWindow == old(recentBidWindow)
      requires Counts() == old(Counts()) && RecentCounts() == old(RecentCounts())
      ensures Tracked()
    {
      HistoryKept();
    }

    /** The counting half of Update: the bid joins the history and the
        counts, and the bid that left the window leaves the recent counts. */
    method RecordBid(bid: Bid)
      requires Tracked() && SingleValued(bid) && IssuesKnown(bid)
      modifies this`bids, this`bidUpdates, ValueObjects()
      ensures Tracked() && bids == old(bids) + [bid] && recentBidWindow == old(recentBidWindow)
    {
      CountBid(bid);
      label counted:
      RemoveOldBidFromRecentCounts();
      OldBidEvicted@counted();
    }

    /** The bid joins the history and every value it chooses counts once
        more, in total and recently. */
    method CountBid(bid: Bid)
      requires Tracked() && SingleValued(bid) && IssuesKnown(bid)
      modifies this`bids, this`bidUpdates, ValueObjects()
      ensures bids == old(bids) + [bid] && bidUpdates == |bids| && recentBidWindow == old(recentBidWindow)
      ensures forall k :: 0 <= k < |bids| ==> SingleValued(bids[k]) && IssuesKnown(bids[k])
      ensures CountsAwaitEviction()
    {
      bids := bids + [bid];
      bidUpdates := bidUpdates + 1;
      UpdateIssuesFromBid(bid);
      BidCounted(bid);
    }

    /** Every count follows the history, and every recent count the window
        before the latest bid joined it, plus that bid's own choices. */
    ghost predicate CountsAwaitEviction()
      requires recentBidWindow >= 0
      reads this, ValueObjects()
    {
      && bids != []
      && forall i, v :: i in issues && v in issues[i].values ==>
           && issues[i].values[v].count == Tally(bids, i, v)
           && issues[i].values[v].recentCount
              == Tally(Window(bids[..|bids| - 1], recentBidWindow), i, v) + Occurrences(bids[|bids| - 1], i, v)
    }

    /** The counts once the new bid, last of the history, has been counted. */
    twostate lemma BidCounted(bid: Bid)
      requires recentBidWindow >= 1 && old(recentBidWindow) == recentBidWindow
      requires bids != [] && bids[|bids| - 1] == bid && old(bids) == bids[..|bids| - 1]
      requires old(CountsFollowHistory())
      requires forall i, v :: i in issues && v in issues[i].values ==>
                 issues[i].values[v].State()
                 == Shift(old(issues[i].values[v].State()), Occurrences(bid, i, v), Occurrences(bid, i, v))
      ensures CountsAwaitEviction()
    {
      forall i, v | i in issues && v in issues[i].values
        ensures issues[i].values[v].count == Tally(bids, i, v)
      {
        TallyGrow(bids[..|bids| - 1], bid, i, v);
        assert bids[..|bids| - 1] + [bid] == bids;
      }
    }

    /** Evicting the bid that left the window makes the recent counts follow
        the window again. */
    twostate lemma OldBidEvicted()
      requires recentBidWindow >= 1 && old(recentBidWindow) == recentBidWindow && old(bids) == bids
      requires old(CountsAwaitEviction())
      requires forall k :: 0 <= k < |bids| ==> IssuesKnown(bids[k])
      requires forall i, v :: i in issues && v in issues[i].values ==>
                 issues[i].values[v].State() == Evict(old(issues[i].values[v].State()), Evicted(FindOldBid(), i, v))
      ensures CountsFollowHistory()
    {
      var front, last := bids[..|bids| - 1], bids[|bids| - 1];
      assert bids == front + [last];
      forall i, v | i in issues && v in issues[i].values
        ensures issues[i].values[v].recentCount == Tally(Window(bids, recentBidWindow), i, v)
      {
        WindowSlide(front, last, recentBidWindow, i, v);
        if |front| >= recentBidWindow {
          assert Window(front, recentBidWindow)[0] == front[|front| - recentBidWindow];
        }
      }
    }

    /** Once the latest bid, choosing a known value, counts, both totals the
        weights are normalized by are positive. */
    lemma TotalsPositive()
      requires Structured() && recentBidWindow >= 1 && bidUpdates != 0
      requires CountsFollowHistory() && bids != [] && ChoosesKnownValue(bids[|bids| - 1])
      ensures TotalWeight(Shape(), Counts(), bidUpdates) > 0.0
      ensures TotalWeight(Shape(), RecentCounts(), recentBidWindow) > 0.0
    {
      var last := bids[|bids| - 1];
      var k :| 0 <= k < |last| && last[k].issue in issues && last[k].value in issues[last[k].issue].values;
      LatestTotalsPositive(k);
    }

    /** The same, for the known value the latest bid chooses at `k`. */
    lemma LatestTotalsPositive(k: nat)
      requires Structured() && recentBidWindow >= 1 && bidUpdates != 0
      requires CountsFollowHistory() && bids != [] && k < |bids[|bids| - 1]|
      requires bids[|bids| - 1][k].issue in issues
      requires bids[|bids| - 1][k].value in issues[bids[|bids| - 1][k].issue].values
      ensures TotalWeight(Shape(), Counts(), bidUpdates) > 0.0
      ensures TotalWeight(Shape(), RecentCounts(), recentBidWindow) > 0.0
    {
      var i, v := bids[|bids| - 1][k].issue, bids[|bids| - 1][k].value;
      LatestChoiceCounts(bids, recentBidWindow, k);
      ChosenValueCounts(i, v);
      ValueInShape(i, v);
      var sh := Shape();
      TotalWeightPositive(sh, Counts(), bidUpdates, i, v);
      TotalWeightPositive(sh, RecentCounts(), recentBidWindow, i, v);
    }

    /** A known value chosen somewhere in the history, and somewhere in the
        window, has nonzero counts, in total and recently. */
    lemma ChosenValueCounts(i: string, v: string)
      requires recentBidWindow >= 0 && CountsFollowHistory()
      requires i in issues && v in issues[i].values
      requires Tally(bids, i, v) >= 1 && Tally(Window(bids, recentBidWindow), i, v) >= 1
      ensures CountOf(Row(Counts(), i), v) >= 1 && CountOf(Row(RecentCounts(), i), v) >= 1
    {
      assert Counts()[i] == issues[i].Counts();
      assert RecentCounts()[i] == issues[i].RecentCounts();
    }

    /** A value an issue of the model tracks is one the shape lists. */
    lemma ValueInShape(i: string, v: string)
      requires IssuesSeparate() && i in issues && v in issues[i].values
      ensures i in Shape().values && v in Shape().values[i]
    {
      assert issues[i].Valid();
    }

    /** Recomputing the estimates leaves the counts, so they still follow
        the history. */
    twostate lemma HistoryKept()
      requires recentBidWindow >= 0 && old(recentBidWindow) == recentBidWindow && old(bids) == bids
      requires old(CountsFollowHistory())
      requires Counts() == old(Counts()) && RecentCounts() == old(RecentCounts())
      ensures CountsFollowHistory()
    {
      forall i, v | i in issues && v in issues[i].values
        ensures issues[i].values[v].count == old(issues[i].values[v].count)
        ensures issues[i].values[v].recentCount == old(issues[i].values[v].recentCount)
      {
        assert Counts()[i][v] == old(Counts())[i][v];
        assert RecentCounts()[i][v] == old(RecentCounts())[i][v];
      }
    }

    // Estimating the opponent's utility of a bid

    /** Every issue the bid names is tracked and so is the value it chooses:
        looking up either one never fails. */
    ghost predicate Recognizes(bid: Bid)
    {
      forall k :: 0 <= k < |bid| ==> bid[k].issue in issues && bid[k].value in issues[bid[k].issue].values
    }

    /** A bid the shape knows is one the model recognizes. */
    lemma KnownIsRecognized(bid: Bid)
      requires IssuesSeparate() && Knows(Shape(), bid)
      ensures Recognizes(bid)
    {
      forall k | 0 <= k < |bid|
        ensures bid[k].issue in issues && bid[k].value in issues[bid[k].issue].values
      {
        assert issues[bid[k].issue].Valid();
      }
    }

    /** The counts behind the overall estimates, or behind the recent ones. */
    function CountsOf(recent: bool): Counts
      reads ValueObjects()
    {
      if recent then RecentCounts() else Counts()
    }

    /** The number those counts are divided by: the bids observed, or the
        window size. */
    function DenomOf(recent: bool): int
      reads this
    {
      if recent then recentBidWindow else bidUpdates
    }

    /** The counts over the history of observed bids, or over its window. */
    ghost function HistoryCountsOf(recent: bool): Counts
      requires recentBidWindow >= 0
      reads this
    {
      if recent then HistoryCounts(Shape(), Window(bids, recentBidWindow)) else HistoryCounts(Shape(), bids)
    }

    /** The history is one the estimates can be computed from: once a bid has
        been observed, both totals the weights are normalized by are nonzero. */
    ghost predicate Estimable()
      reads this
    {
      && Structured()
      && recentBidWindow >= 1
      && bidUpdates == |bids|
      && (bids != [] ==>
            && TotalWeight(Shape(), HistoryCountsOf(false), DenomOf(false)) != 0.0
            && TotalWeight(Shape(), HistoryCountsOf(true), DenomOf(true)) != 0.0)
    }

    /** What the bid is worth to the opponent, estimated from the bids
        observed so far (overall) or from those in the window (recent): the
        utility the formulas give for the counts over those bids, and 0
        before the first bid. */
    ghost function HistoryUtility(bid: Bid, recent: bool): real
      requires Estimable() && Knows(Shape(), bid)
      reads this
    {
      if bids == [] then 0.0
      else Utility(variant, Shape(), HistoryCountsOf(recent), DenomOf(recent), bid)
    }

    /** An issue whose counts are tallies over `bs` holds the counts the
        history `bs` gives it. */
    static lemma RowIsHistory(issue: OpponentIssue, i: string, bs: seq<Bid>)
      requires issue.Valid()
      requires forall v :: v in issue.values ==> issue.values[v].count == Tally(bs, i, v)
      ensures issue.Counts() == map v | v in issue.order :: Tally(bs, i, v) as int
    {
    }

    /** The same for the recent counts. */
    static lemma RecentRowIsHistory(issue: OpponentIssue, i: string, bs: seq<Bid>)
      requires issue.Valid()
      requires forall v :: v in issue.values ==> issue.values[v].recentCount == Tally(bs, i, v)
      ensures issue.RecentCounts() == map v | v in issue.order :: Tally(bs, i, v) as int
    {
    }

    /** One issue's counts are the ones the history gives it. */
    lemma IssueCountsAreHistory(i: string)
      requires IssuesSeparate() && recentBidWindow >= 0 && CountsFollowHistory() && i in issues
      ensures Counts()[i] == HistoryCountsOf(false)[i]
      ensures RecentCounts()[i] == HistoryCountsOf(true)[i]
    {
      var issue := issues[i];
      assert issue.Valid();
      RowIsHistory(issue, i, bids);
      RecentRowIsHistory(issue, i, Window(bids, recentBidWindow));
      assert Shape().values[i] == issue.order;
      HistoryRow(Shape(), bids, i, issue.order);
      HistoryRow(Shape(), Window(bids, recentBidWindow), i, issue.order);
    }

    /** The counts the model holds are the counts over its history. */
    lemma CountsAreHistory()
      requires IssuesSeparate() && recentBidWindow >= 0 && CountsFollowHistory()
      ensures Counts() == HistoryCountsOf(false) && RecentCounts() == HistoryCountsOf(true)
    {
      HistoryKeys(Shape(), bids);
      HistoryKeys(Shape(), Window(bids, recentBidWindow));
      forall i | i in issues
        ensures Counts()[i] == HistoryCountsOf(false)[i] && RecentCounts()[i] == HistoryCountsOf(true)[i]
      {
        IssueCountsAreHistory(i);
      }
    }

    /** A valid model can always estimate. */
    lemma ValidIsEstimable()
      requires Valid()
      ensures Estimable()
    {
      CountsAreHistory();
    }

    /** The share of the overall estimate one issue and value contribute:
        the normalized weight of the issue times the preference value. */
    function GetIssueValueUtility(issueName: string, valueName: string): real
      requires issueName in issues && valueName in issues[issueName].values
      reads IssueObjects(), ValueObjects()
    {
      var issue := issues[issueName];
      assert issue in IssueObjects();
      var value := issue.values[valueName];
      assert value in ValueObjects();
      issue.normalizedWeight * value.preferenceValue
    }

    /** The same share of the recent estimate. */
    function GetRecentIssueValueUtility(issueName: string, valueName: string): real
      requires issueName in issues && valueName in issues[issueName].values
      reads IssueObjects(), ValueObjects()
    {
      var issue := issues[issueName];
      assert issue in IssueObjects();
      var value := issue.values[valueName];
      assert value in ValueObjects();
      issue.normalizedRecentWeight * value.recentPreferenceValue
    }

    /** The normalized weight of an issue, overall or recent. */
    ghost function Share(issueName: string, recent: bool): real
      requires issueName in issues
      reads IssueObjects()
    {
      assert issues[issueName] in IssueObjects();
      if recent then issues[issueName].normalizedRecentWeight else issues[issueName].normalizedWeight
    }

    /** The preference value of a value, overall or recent. */
    ghost function StoredPreference(issueName: string, valueName: string, recent: bool): real
      requires issueName in issues && valueName in issues[issueName].values
      reads ValueObjects()
    {
      var value := issues[issueName].values[valueName];
      assert value in ValueObjects();
      if recent then value.recentPreferenceValue else value.preferenceValue
    }

    /** The share of the overall or the recent estimate one issue and value
        contribute. */
    ghost function IssueValueUtility(issueName: string, valueName: string, recent: bool): real
      requires issueName in issues && valueName in issues[issueName].values
      reads IssueObjects(), ValueObjects()
    {
      Share(issueName, recent) * StoredPreference(issueName, valueName, recent)
    }

    /** The shares of every assignment of the bid, added up. */
    ghost function StoredUtility(bid: Bid, recent: bool): real
      requires Recognizes(bid)
      reads IssueObjects(), ValueObjects()
    {
      if bid == [] then 0.0
      else
        var a := bid[|bid| - 1];
        StoredUtility(bid[..|bid| - 1], recent) + IssueValueUtility(a.issue, a.value, recent)
    }

    /** The stored normalized weight of an issue is the share of the total
        weight the formulas give it; before the first bid it is 0. */
    lemma NormalizedWeightIsSpecified(issueName: string, recent: bool)
      requires Valid() && issueName in issues
      ensures bids == [] ==> Share(issueName, recent) == 0.0
      ensures bids != [] ==>
                Share(issueName, recent)
                == Weights(Shape(), CountsOf(recent), DenomOf(recent))[issueName]
                   / TotalWeight(Shape(), CountsOf(recent), DenomOf(recent))
    {
      if bids != [] {
        var issue := issues[issueName];
        assert issue.Valid();
        assert issue.EstimatesAre(bidUpdates, recentBidWindow, issue.Counts(), issue.RecentCounts());
        assert Shape().values[issueName] == issue.order;
        assert Row(CountsOf(recent), issueName) == if recent then issue.RecentCounts() else issue.Counts();
      }
    }

    /** The stored preference of a value is the one the formulas give it. */
    lemma PreferenceIsSpecified(issueName: string, valueName: string, recent: bool)
      requires Valid() && bids != [] && issueName in issues && valueName in issues[issueName].values
      ensures issueName in Shape().values && valueName in Shape().values[issueName]
      ensures StoredPreference(issueName, valueName, recent)
              == Preferences(variant, Shape(), CountsOf(recent), DenomOf(recent))[issueName][valueName]
    {
      var issue := issues[issueName];
      ValueInShape(issueName, valueName);
      assert issue.EstimatesAre(bidUpdates, recentBidWindow, issue.Counts(), issue.RecentCounts());
      assert Shape().values[issueName] == issue.order;
      assert Row(CountsOf(recent), issueName) == if recent then issue.RecentCounts() else issue.Counts();
    }

    /** Adding up the stored shares gives the utility the formulas give for
        the history. */
    lemma StoredUtilityIsHistoryUtility(bid: Bid, recent: bool)
      requires Valid() && Knows(Shape(), bid)
      ensures Estimable() && Recognizes(bid)
      ensures StoredUtility(bid, recent) == HistoryUtility(bid, recent)
    {
      ValidIsEstimable();
      KnownIsRecognized(bid);
      if bids == [] {
        forall i | i in issues ensures Share(i, recent) == 0.0 {
          NormalizedWeightIsSpecified(i, recent);
        }
        UnweightedSum(bid, recent);
      } else {
        var sh, c, d := Shape(), CountsOf(recent), DenomOf(recent);
        var w, total, p := Weights(sh, c, d), TotalWeight(sh, c, d), Preferences(variant, sh, c, d);
        forall k | 0 <= k < |bid|
          ensures bid[k].issue in w && bid[k].issue in p && bid[k].value in p[bid[k].issue]
          ensures Share(bid[k].issue, recent) == w[bid[k].issue] / total
          ensures StoredPreference(bid[k].issue, bid[k].value, recent) == p[bid[k].issue][bid[k].value]
        {
          NormalizedWeightIsSpecified(bid[k].issue, recent);
          PreferenceIsSpecified(bid[k].issue, bid[k].value, recent);
        }
        SharesAddUp(bid, recent, w, total, p);
        CountsAreHistory();
      }
    }

    /** With every normalized weight 0, so is every sum of shares. */
    lemma {:induction false} UnweightedSum(bid: Bid, recent: bool)
      requires Recognizes(bid)
      requires forall i :: i in issues ==> Share(i, recent) == 0.0
      ensures StoredUtility(bid, recent) == 0.0
      decreases |bid|
    {
      if bid != [] {
        var front, a := bid[..|bid| - 1], bid[|bid| - 1];
        assert Recognizes(front) by {
          forall k | 0 <= k < |front| ensures front[k] == bid[k] { }
        }
        UnweightedSum(front, recent);
        ZeroShare(IssueValueUtility(a.issue, a.value, recent), Share(a.issue, recent), StoredPreference(a.issue, a.value, recent));
      }
    }

    /** When every share is the weight the formulas give the issue, divided
        by their total, times the preference they give the value, the shares
        add up to the utility the formulas give. */
    lemma {:induction false} SharesAddUp(bid: Bid, recent: bool, w: map<string, real>, total: real, p: map<string, map<string, real>>)
      requires Recognizes(bid) && Covers(w, p, bid) && total != 0.0
      requires forall k :: 0 <= k < |bid| ==>
                 && Share(bid[k].issue, recent) == w[bid[k].issue] / total
                 && StoredPreference(bid[k].issue, bid[k].value, recent) == p[bid[k].issue][bid[k].value]
      ensures StoredUtility(bid, recent) == BidUtility(w, total, p, bid)
      decreases |bid|
    {
      if bid != [] {
        var front, a := bid[..|bid| - 1], bid[|bid| - 1];
        assert Recognizes(front) && Covers(w, p, front) by {
          forall k | 0 <= k < |front| ensures front[k] == bid[k] { }
        }
        SharesAddUp(front, recent, w, total, p);
        ScaledProduct(IssueValueUtility(a.issue, a.value, recent), Share(a.issue, recent),
                      StoredPreference(a.issue, a.value, recent), w[a.issue], total, p[a.issue][a.value]);
      }
    }

    /** One more assignment of the bid adds its share. */
    lemma StoredUtilityStep(bid: Bid, k: nat, recent: bool)
      requires Recognizes(bid) && k < |bid|
      ensures Recognizes(bid[..k]) && Recognizes(bid[..k + 1])
      ensures StoredUtility(bid[..k + 1], recent)
              == StoredUtility(bid[..k], recent) + IssueValueUtility(bid[k].issue, bid[k].value, recent)
      ensures GetIssueValueUtility(bid[k].issue, bid[k].value) == IssueValueUtility(bid[k].issue, bid[k].value, false)
      ensures GetRecentIssueValueUtility(bid[k].issue, bid[k].value) == IssueValueUtility(bid[k].issue, bid[k].value, true)
    {
      assert bid[..k + 1][..k] == bid[..k];
      assert forall j :: 0 <= j <= k ==> bid[..k + 1][j] == bid[j];
    }

    lemma StoredUtilityWhole(bid: Bid, recent: bool)
      requires Recognizes(bid)
      ensures Recognizes(bid[..|bid|]) && StoredUtility(bid[..|bid|], recent) == StoredUtility(bid, recent)
    {
      assert bid[..|bid|] == bid;
    }

    /** Adds up the overall shares of the bid's assignments. */
    method CalculateUtilityForBid(bid: Bid) returns (u: real)
      requires Valid() && Knows(Shape(), bid)
      ensures Valid() && Estimable() && u == HistoryUtility(bid, false)
    {
      KnownIsRecognized(bid);
      u := 0.0;
      for k := 0 to |bid|
        invariant Valid() && Recognizes(bid[..k])
        invariant u == StoredUtility(bid[..k], false)
      {
        StoredUtilityStep(bid, k, false);
        u := u + GetIssueValueUtility(bid[k].issue, bid[k].value);
      }
      StoredUtilityWhole(bid, false);
      StoredUtilityIsHistoryUtility(bid, false);
    }

    /** Adds up the recent shares of the bid's assignments. */
    method CalculateRecentUtilityForBid(bid: Bid) returns (u: real)
      requires Valid() && Knows(Shape(), bid)
      ensures Valid() && Estimable() && u == HistoryUtility(bid, true)
    {
      KnownIsRecognized(bid);
      u := 0.0;
      for k := 0 to |bid|
        invariant Valid() && Recognizes(bid[..k])
        invariant u == StoredUtility(bid[..k], true)
      {
        StoredUtilityStep(bid, k, true);
        u := u + GetRecentIssueValueUtility(bid[k].issue, bid[k].value);
      }
      StoredUtilityWhole(bid, true);
      StoredUtilityIsHistoryUtility(bid, true);
    }

    /** The estimated utility of a bid naming each issue at most once lies
        between 0 and 1, overall and recently. */
    lemma UtilityWithinBounds(bid: Bid, recent: bool)
      requires Estimable() && Knows(Shape(), bid) && SingleValued(bid)
      requires forall k :: 0 <= k < |bids| ==> SingleValued(bids[k])
      ensures 0.0 <= HistoryUtility(bid, recent) <= 1.0
    {
      if bids != [] {
        HistoryCountsWithin(Shape(), bids, recentBidWindow);
        UtilityBounds(variant, Shape(), HistoryCountsOf(recent), DenomOf(recent), bid);
      }
    }

    /** Once the history is exactly as long as the window, the recent
        estimate is the overall one. */
    lemma RecentIsOverallWhenWindowFull(bid: Bid)
      requires Estimable() && Knows(Shape(), bid) && |bids| == recentBidWindow
      ensures HistoryUtility(bid, true) == HistoryUtility(bid, false)
    {
      assert Window(bids, recentBidWindow) == bids;
    }

    /** The overall estimate for a bid; no bid (null) has no utility. */
    method CalculateUtility(bid: Option<Bid>) returns (u: real)
      requires Valid() && (bid.Some? ==> Knows(Shape(), bid.value))
      ensures Valid() && Estimable()
      ensures bid.None? ==> u == NO_UTILITY
      ensures bid.Some? ==> u == HistoryUtility(bid.value, false)
    {
      ValidIsEstimable();
      if bid.Some? {
        u := CalculateUtilityForBid(bid.value);
      } else {
        u := NO_UTILITY;
      }
    }

    /** The recent estimate for a bid; no bid (null) has no utility. */
    method CalculateRecentUtility(bid: Option<Bid>) returns (u: real)
      requires Valid() && (bid.Some? ==> Knows(Shape(), bid.value))
      ensures Valid() && Estimable()
      ensures bid.None? ==> u == NO_UTILITY
      ensures bid.Some? ==> u == HistoryUtility(bid.value, true)
    {
      ValidIsEstimable();
      if bid.Some? {
        u := CalculateRecentUtilityForBid(bid.value);
      } else {
        u := NO_UTILITY;
      }
    }

    /** The mean of the overall and the recent estimate. */
    method CalculateMeanUtility(bid: Option<Bid>) returns (u: real)
      requires Valid() && (bid.Some? ==> Knows(Shape(), bid.value))
      ensures Valid() && Estimable()
      ensures bid.None? ==> u == NO_UTILITY
      ensures bid.Some? ==> u == (HistoryUtility(bid.value, false) + HistoryUtility(bid.value, true)) / 2.0
      ensures bid.Some? && SingleValued(bid.value) ==> 0.0 <= u <= 1.0
    {
      var overall := CalculateUtility(bid);
      var recent := CalculateRecentUtility(bid);
      u := (overall + recent) / 2.0;
      if bid.Some? && SingleValued(bid.value) {
        UtilityWithinBounds(bid.value, false);
        UtilityWithinBounds(bid.value, true);
      }
    }

    /** The overall estimate with full confidence; no bid (null) has no
        meaningful estimate. */
    method CalculateEstimatedUtility(bid: Option<Bid>) returns (e: EstimatedUtility)
      requires Valid() && (bid.Some? ==> Knows(Shape(), bid.value))
      ensures Valid() && Estimable()
      ensures bid.None? ==> e == NO_MEANINGFUL_ESTIMATE
      ensures bid.Some? ==> e == EstimatedUtility(HistoryUtility(bid.value, false), DEFAULT_CONFIDENCE_LEVEL)
      ensures bid.Some? ==> e.IsMeaningful()
    {
      ValidIsEstimable();
      if bid.Some? {
        var u := CalculateUtilityForBid(bid.value);
        e := EstimatedUtility(u, DEFAULT_CONFIDENCE_LEVEL);
      } else {
        e := NO_MEANINGFUL_ESTIMATE;
      }
    }

    /** Observes the bid of an offer; no offer (null) changes nothing. */
    method UpdateOffer(offer: Option<Bid>)
      requires Valid()
      requires offer.Some? ==> SingleValued(offer.value) && IssuesKnown(offer.value) && ChoosesKnownValue(offer.value)
      modifies this`bids, this`bidUpdates, this`totalUnnormalized, this`recentUnnormalized
      modifies IssueObjects(), ValueObjects()
      ensures Valid()
      ensures bids == old(bids) + (if offer.Some? then [offer.value] else [])
      ensures recentBidWindow == old(recentBidWindow)
    {
      if offer.Some? {
        Update(offer.value);
      }
    }
  }
}
