/**
 * The negotiation domain as the agent sees it: discrete issues, each with
 * named values, and bids that choose one value per issue.
 */
module Domains {

  /** One issue of a bid together with the value the bid chooses for it:
      the issue's number and name and the name of the chosen discrete value. */
  datatype Assignment = Assignment(issueNo: int, issue: string, value: string)

  /** A bid: its assignments in the order of the domain's issue list. */
  type Bid = seq<Assignment>

  /** A discrete issue of the domain: its number, its name and its values' names. */
  datatype Issue = Issue(number: int, name: string, values: seq<string>)

  /** Number of assignments of `bid` that choose `value` for `issue`. */
  function Occurrences(bid: Bid, issue: string, value: string): (n: nat)
    ensures n <= |bid|
    ensures n > 0 <==> exists k :: 0 <= k < |bid| && bid[k].issue == issue && bid[k].value == value
  {
    if bid == [] then 0
    else
      Occurrences(bid[..|bid| - 1], issue, value)
      + (if bid[|bid| - 1].issue == issue && bid[|bid| - 1].value == value then 1 else 0)
  }

  /** Each issue occurs at most once in the bid. */
  ghost predicate SingleValued(bid: Bid)
  {
    forall j, k :: 0 <= j < k < |bid| ==> bid[j].issue != bid[k].issue
  }

  lemma {:induction false} OccurrencesAtMostOne(bid: Bid, issue: string, value: string)
    requires SingleValued(bid)
    ensures Occurrences(bid, issue, value) <= 1
    decreases |bid|
  {
    if bid != [] {
      var front := bid[..|bid| - 1];
      OccurrencesAtMostOne(front, issue, value);
    }
  }

  /** How often `value` was chosen for `issue` over a history of bids. */
  function Tally(bids: seq<Bid>, issue: string, value: string): nat
  {
    if bids == [] then 0
    else Tally(bids[..|bids| - 1], issue, value) + Occurrences(bids[|bids| - 1], issue, value)
  }

  /** One more bid adds its occurrences to the tally. */
  lemma TallyGrow(bids: seq<Bid>, bid: Bid, issue: string, value: string)
    ensures Tally(bids + [bid], issue, value) == Tally(bids, issue, value) + Occurrences(bid, issue, value)
  {
    assert (bids + [bid])[..|bids|] == bids;
  }

  lemma {:induction false} TallyAppend(bids: seq<Bid>, more: seq<Bid>, issue: string, value: string)
    ensures Tally(bids + more, issue, value) == Tally(bids, issue, value) + Tally(more, issue, value)
    decreases |more|
  {
    if more == [] {
      assert bids + more == bids;
    } else {
      assert (bids + more)[..|bids + more| - 1] == bids + more[..|more| - 1];
      TallyAppend(bids, more[..|more| - 1], issue, value);
    }
  }

  /** A history of single-valued bids chooses a value at most once per bid. */
  lemma {:induction false} TallyAtMostLength(bids: seq<Bid>, issue: string, value: string)
    requires forall k :: 0 <= k < |bids| ==> SingleValued(bids[k])
    ensures Tally(bids, issue, value) <= |bids|
    decreases |bids|
  {
    if bids != [] {
      TallyAtMostLength(bids[..|bids| - 1], issue, value);
      OccurrencesAtMostOne(bids[|bids| - 1], issue, value);
    }
  }

  /** The most recent `w` bids of a history (all of them while there are fewer). */
  function Window(bids: seq<Bid>, w: nat): (r: seq<Bid>)
    ensures |r| == if |bids| < w then |bids| else w
    ensures forall k :: 0 <= k < |r| ==> r[k] == bids[|bids| - |r| + k]
  {
    if |bids| <= w then bids else bids[|bids| - w..]
  }

  /** The window is a suffix of the history, so it never counts a value more
      often than the whole history does. */
  lemma WindowAtMostHistory(bids: seq<Bid>, w: nat, issue: string, value: string)
    ensures Tally(Window(bids, w), issue, value) <= Tally(bids, issue, value)
  {
    var r := Window(bids, w);
    assert bids == bids[..|bids| - |r|] + r;
    TallyAppend(bids[..|bids| - |r|], r, issue, value);
  }

  /** The latest bid is always inside the window: a value it chooses
      counts at least once, over the history and over the window. */
  lemma LatestChoiceCounts(bids: seq<Bid>, w: nat, k: nat)
    requires w >= 1 && bids != [] && k < |bids[|bids| - 1]|
    ensures Tally(bids, bids[|bids| - 1][k].issue, bids[|bids| - 1][k].value) >= 1
    ensures Tally(Window(bids, w), bids[|bids| - 1][k].issue, bids[|bids| - 1][k].value) >= 1
  {
    var last := bids[|bids| - 1];
    var a := last[k];
    assert Occurrences(last, a.issue, a.value) >= 1 by {
      assert last[k].issue == a.issue && last[k].value == a.value;
    }
    var r := Window(bids, w);
    assert r[|r| - 1] == last;
  }

  /** Sliding the window by one bid: the new bid enters, and once the history
      is longer than the window the bid `w` places back leaves it. */
  lemma {:induction false} WindowSlide(bids: seq<Bid>, bid: Bid, w: nat, issue: string, value: string)
    requires w >= 1
    ensures Tally(Window(bids + [bid], w), issue, value)
            == Tally(Window(bids, w), issue, value) + Occurrences(bid, issue, value)
               - (if |bids| >= w then Occurrences(bids[|bids| - w], issue, value) else 0)
  {
    var grown := bids + [bid];
    if |bids| < w {
      assert Window(grown, w) == Window(bids, w) + [bid];
      TallyAppend(Window(bids, w), [bid], issue, value);
    } else {
      var old_ := Window(bids, w);
      assert old_ == [bids[|bids| - w]] + old_[1..];
      assert Window(grown, w) == old_[1..] + [bid];
      TallyAppend([bids[|bids| - w]], old_[1..], issue, value);
      TallyAppend(old_[1..], [bid], issue, value);
      assert Tally([bids[|bids| - w]], issue, value) == Occurrences(bids[|bids| - w], issue, value) by {
        assert [bids[|bids| - w]][..0] == [];
      }
      assert Tally([bid], issue, value) == Occurrences(bid, issue, value) by {
        assert [bid][..0] == [];
      }
    }
  }
}
