/**
 * The candidate bids the agent draws its offers from: a list without
 * duplicates, filled from the user's bid ranking (under preference
 * uncertainty) or from random bids of the domain, keeping the bids whose
 * utility lies in the current utility band, up to a limit that grows as
 * the band slides down.
 */
module BidSelectors {
  import opened Wrappers
  import opened SeqUtil
  import opened Domains

  /** Draws per fill pass in domain mode. */
  const MAX_ATTEMPTS: nat := 1000

  /** The user model of a negotiation under uncertainty: its bid ranking,
      lowest first, or None when it has none. */
  datatype UserModel = UserModel(ranking: Option<seq<Bid>>)

  /** `java.util.Random`: the numbers it produces, in order, are `tape`. */
  class RandomSource {
    const tape: nat -> nat
    var draws: nat

    constructor(tape: nat -> nat)
      ensures this.tape == tape && draws == 0
    {
      this.tape := tape;
      draws := 0;
    }

    /** `nextInt(bound)`: the next number of the tape, reduced below `bound`;
        Java rejects a bound that is not positive. */
    method NextInt(bound: int) returns (r: nat)
      requires bound > 0
      modifies this`draws
      ensures r == tape(old(draws)) % bound && r < bound
      ensures draws == old(draws) + 1
    {
      r := tape(draws) % bound;
      draws := draws + 1;
    }
  }

  /** The bid chooses, for the issues in order, one of each issue's values. */
  ghost predicate InDomain(bid: Bid, issues: seq<Issue>)
  {
    && |bid| == |issues|
    && forall k :: 0 <= k < |bid| ==>
         && bid[k].issueNo == issues[k].number && bid[k].issue == issues[k].name
         && bid[k].value in issues[k].values
  }

  /** Every issue has a value to draw. */
  ghost predicate Drawable(issues: seq<Issue>)
  {
    forall k :: 0 <= k < |issues| ==> |issues[k].values| > 0
  }

  class BidSelector {
    const random: RandomSource
    /** The utility of a bid in the agent's utility space; None when the
        utility space throws. */
    const space: Bid -> Option<real>
    const uncertainty: bool
    /** The user's bid ranking; None when there is none. */
    const ranking: Option<seq<Bid>>
    /** The issues of the domain bids are drawn from; empty under
        uncertainty and when the utility space has no domain. */
    const issues: seq<Issue>
    var bids: seq<Bid>
    var bidLimit: int
    var minimumUtility: real
    var previousMinimumUtility: real

    /** The list holds each bid once; in domain mode random values can be
        drawn for every issue. */
    ghost predicate Valid()
      reads this
    {
      && NoDuplicates(bids)
      && (!uncertainty ==> Drawable(issues))
    }

    /** The bid was drawn from where this selector draws its bids: the
        ranking under uncertainty, the domain's issues otherwise. */
    ghost predicate Source(bid: Bid)
    {
      if uncertainty then ranking.Some? && bid in ranking.value else InDomain(bid, issues)
    }

    /** `getUtility`: the utility of the bid, or 0 when the utility space
        throws. */
    function GetUtility(bid: Bid): (u: real)
      ensures space(bid).Some? ==> u == space(bid).value
      ensures space(bid).None? ==> u == 0.0
    {
      match space(bid)
      case Some(v) => v
      case None => 0.0
    }

    /** The bid's utility lies in the current band. */
    predicate InBand(bid: Bid)
      reads this
    {
      minimumUtility <= GetUtility(bid) <= previousMinimumUtility
    }

    /** Starts with the bids of the first band, [minimumUtility, 1]. Under
        uncertainty (a user model is given) they come from its ranking,
        otherwise from random bids of the domain, when there is one. */
    constructor(random: RandomSource, space: Bid -> Option<real>, userModel: Option<UserModel>,
                domain: Option<seq<Issue>>, bidLimit: int, minimumUtility: real)
      requires userModel.None? && domain.Some? ==> Drawable(domain.value)
      modifies random`draws
      ensures Valid()
      ensures this.random == random && this.space == space && uncertainty == userModel.Some?
      ensures this.bidLimit == bidLimit && this.minimumUtility == minimumUtility && previousMinimumUtility == 1.0
      ensures ranking == if userModel.Some? then userModel.value.ranking else None
      ensures issues == if userModel.None? && domain.Some? then domain.value else []
      ensures forall b :: b in bids ==> Source(b) && InBand(b)
      ensures |bids| <= if bidLimit > 0 then bidLimit else 1
    {
      this.random := random;
      this.space := space;
      this.uncertainty := userModel.Some?;
      this.ranking := if userModel.Some? then userModel.value.ranking else None;
      this.issues := if userModel.None? && domain.Some? then domain.value else [];
      this.bidLimit := bidLimit;
      this.minimumUtility := minimumUtility;
      this.previousMinimumUtility := 1.0;
      this.bids := [];
      new;
      if userModel.Some? {
        AddBidsFromRanking();
      } else if domain.Some? {
        AddBidsFromDomain();
      }
    }

    /** `getRandomBid`: a bid of the list chosen by the next random number,
        or None when the list is empty. */
    method GetRandomBid() returns (selected: Option<Bid>)
      modifies random`draws
      ensures selected.None? <==> bids == []
      ensures selected.Some? ==> selected.value in bids
      ensures selected.Some? ==> selected.value == bids[random.tape(old(random.draws)) % |bids|]
      ensures random.draws == old(random.draws) + (if bids == [] then 0 else 1)
    {
      selected := None;
      if |bids| > 0 {
        var index := random.NextInt(|bids|);
        selected := Some(bids[index]);
      }
    }

    /** Raises the limit by `numBids`, slides the band down to
        [minimumUtility, the old minimum] and fills the list from it. */
    method ExpandList(numBids: int, minimumUtility: real)
      requires Valid()
      modifies this`bidLimit, this`minimumUtility, this`previousMinimumUtility, this`bids, random`draws
      ensures Valid()
      ensures bidLimit == old(bidLimit) + numBids
      ensures previousMinimumUtility == old(this.minimumUtility) && this.minimumUtility == minimumUtility
      ensures forall b :: b in old(bids) ==> b in bids
      ensures forall b :: b in bids && b !in old(bids) ==> Source(b) && InBand(b)
      ensures |old(bids)| < bidLimit ==> |bids| <= bidLimit
      ensures |bids| <= |old(bids)| + 1 || |bids| <= bidLimit
    {
      bidLimit := bidLimit + numBids;
      previousMinimumUtility := this.minimumUtility;
      this.minimumUtility := minimumUtility;
      if uncertainty {
        AddBidsFromRanking();
      } else {
        AddBidsFromDomain();
      }
    }

    /** One pass over the ranking: adds the bids in the band, in ranking
        order, and stops as soon as the list reaches the limit. A pass that
        ends below the limit has taken every bid of the ranking in the band. */
    method AddBidsFromRanking()
      requires NoDuplicates(bids)
      modifies this`bids
      ensures NoDuplicates(bids)
      ensures forall b :: b in old(bids) ==> b in bids
      ensures forall b :: b in bids && b !in old(bids) ==> ranking.Some? && b in ranking.value && InBand(b)
      ensures ranking.Some? && |bids| < bidLimit ==> forall b :: b in ranking.value && InBand(b) ==> b in bids
      ensures |old(bids)| < bidLimit ==> |bids| <= bidLimit
      ensures |bids| <= |old(bids)| + 1 || |bids| <= bidLimit
    {
      if ranking.Some? {
        var order := ranking.value;
        var bidSet := bids;
        for k := 0 to |order|
          invariant NoDuplicates(bidSet)
          invariant forall b :: b in bids ==> b in bidSet
          invariant forall b :: b in bidSet && b !in bids ==> b in order && InBand(b)
          invariant forall j :: 0 <= j < k && InBand(order[j]) ==> order[j] in bidSet
          invariant |bidSet| <= |bids| || |bidSet| < bidLimit
        {
          var bid := order[k];
          var utility := GetUtility(bid);
          if minimumUtility <= utility <= previousMinimumUtility && bid !in bidSet {
            bidSet := bidSet + [bid];
          }
          if |bidSet| >= bidLimit {
            break;
          }
        }
        bids := bidSet;
      }
    }

    /** One pass of at most MAX_ATTEMPTS random bids of the domain: adds
        those in the band and stops as soon as the list reaches the limit.
        Without issues every draw is the empty bid, which joins the list
        when its utility lies in the band. */
    method AddBidsFromDomain()
      requires NoDuplicates(bids) && Drawable(issues)
      modifies this`bids, random`draws
      ensures NoDuplicates(bids)
      ensures forall b :: b in old(bids) ==> b in bids
      ensures forall b :: b in bids && b !in old(bids) ==> InDomain(b, issues) && InBand(b)
      ensures |old(bids)| < bidLimit ==> |bids| <= bidLimit
      ensures |bids| <= |old(bids)| + 1 || |bids| <= bidLimit
      ensures old(random.draws) <= random.draws <= old(random.draws) + MAX_ATTEMPTS * |issues|
      ensures issues == [] ==> random.draws == old(random.draws)
      ensures issues == [] && InBand([]) ==> [] in bids
    {
      var bidSet := bids;
      for attempt := 0 to MAX_ATTEMPTS
        modifies random`draws
        invariant NoDuplicates(bidSet)
        invariant forall b :: b in bids ==> b in bidSet
        invariant forall b :: b in bidSet && b !in bids ==> InDomain(b, issues) && InBand(b)
        invariant |bidSet| <= |bids| || |bidSet| < bidLimit
        invariant random.draws == old(random.draws) + attempt * |issues|
        invariant issues == [] && 0 < attempt && InBand([]) ==> [] in bidSet
      {
        var bid := GenerateRandomBid();
        var utility := GetUtility(bid);
        if minimumUtility <= utility <= previousMinimumUtility && bid !in bidSet {
          bidSet := bidSet + [bid];
        }
        ScaledBelow(attempt + 1, MAX_ATTEMPTS, |issues|);
        if |bidSet| >= bidLimit {
          break;
        }
      }
      bids := bidSet;
    }

    static lemma ScaledBelow(a: nat, b: nat, n: nat)
      requires a <= b
      ensures a * n <= b * n
    {
    }

    /** A random bid of the domain: for each issue in turn, the value the
        next random number picks. */
    method GenerateRandomBid() returns (bid: Bid)
      requires Drawable(issues)
      modifies random`draws
      ensures InDomain(bid, issues)
      ensures forall k :: 0 <= k < |issues| ==>
                bid[k].value == issues[k].values[random.tape(old(random.draws) + k) % |issues[k].values|]
      ensures random.draws == old(random.draws) + |issues|
    {
      bid := [];
      for k := 0 to |issues|
        invariant |bid| == k && InDomain(bid, issues[..k])
        invariant forall j :: 0 <= j < k ==>
                    bid[j].value == issues[j].values[random.tape(old(random.draws) + j) % |issues[j].values|]
        invariant random.draws == old(random.draws) + k
      {
        var value := RandomValueFrom(issues[k]);
        bid := bid + [Assignment(issues[k].number, issues[k].name, value)];
      }
    }

    /** The value of the issue the next random number picks. */
    method RandomValueFrom(issue: Issue) returns (value: string)
      requires |issue.values| > 0
      modifies random`draws
      ensures value == issue.values[random.tape(old(random.draws)) % |issue.values|]
      ensures value in issue.values
      ensures random.draws == old(random.draws) + 1
    {
      var index := random.NextInt(|issue.values|);
      value := issue.values[index];
    }
  }
}
