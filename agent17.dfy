/**
 * The agent's decisions: how it answers an opponent's offer (accept, offer
 * a bid, or end the negotiation), which bid it offers, how its utility
 * target moves (Boulware before the transition time, tit for tat after),
 * and how many bids it may elicit from the user at the start.
 *
 * The agent's utility space, the opponent model's recent utility, the
 * clock, the Boulware time factor and the shuffle of the candidate list
 * are inputs.
 */
module Agents {
  import opened Wrappers
  import opened Domains
  import opened EstimatedUtilities

  /** What the agent answers: accept the opponent's bid, offer a bid (which
      may be null when the utility space has no maximal bid), or walk away. */
  datatype Action = Accept(accepted: Bid) | Offer(bid: Option<Bid>) | EndNegotiation

  /** The agent's tuned constants. `reservation` is the reservation value of
      the agent's utility space. */
  datatype Hyperparameters = Hyperparameters(finishTime: real, giveUpTime: real, transitionTime: real,
                                             maxListSize: int, reservation: real)

  /** The opponent model's recent utility of a bid; a null bid has none. */
  function OppUtility(opp: Bid -> real, bid: Option<Bid>): (u: real)
    ensures bid.None? ==> u == NO_UTILITY
    ensures bid.Some? ==> u == opp(bid.value)
  {
    if bid.None? then NO_UTILITY else opp(bid.value)
  }

  /** The first index of the maximum of `f` over `xs`, provided that maximum
      exceeds `floor`; None when no element exceeds `floor`. */
  function FirstMax<T>(f: T -> real, xs: seq<T>, floor: real): (r: Option<nat>)
    ensures r.Some? ==> r.value < |xs|
  {
    if xs == [] then None
    else
      var k := FirstMax(f, xs[..|xs| - 1], floor);
      var best := if k.None? then floor else f(xs[k.value]);
      if f(xs[|xs| - 1]) > best then Some(|xs| - 1) else k
  }

  /** None exactly when nothing beats the floor; otherwise the element found
      beats the floor, nothing beats it, and every element before it is
      strictly worse. */
  lemma {:induction false} FirstMaxMeaning<T>(f: T -> real, xs: seq<T>, floor: real)
    ensures FirstMax(f, xs, floor).None? <==> forall j :: 0 <= j < |xs| ==> f(xs[j]) <= floor
    ensures FirstMax(f, xs, floor).Some? ==>
              var k := FirstMax(f, xs, floor).value;
              && f(xs[k]) > floor
              && (forall j :: 0 <= j < |xs| ==> f(xs[j]) <= f(xs[k]))
              && forall j :: 0 <= j < k ==> f(xs[j]) < f(xs[k])
    decreases |xs|
  {
    if xs != [] {
      var front := xs[..|xs| - 1];
      FirstMaxMeaning(f, front, floor);
      assert forall j :: 0 <= j < |front| ==> front[j] == xs[j];
    }
  }

  /** `bestBidFromOpponent`: the first of the opponent's bids with the
      highest utility for the agent, when that utility is above 0; the last
      offer otherwise. */
  function BestOf(utility: Option<Bid> -> real, opponentBids: seq<Option<Bid>>, lastOffer: Option<Bid>): Option<Bid>
  {
    match FirstMax(utility, opponentBids, 0.0)
    case None => lastOffer
    case Some(k) => opponentBids[k]
  }

  /** The bids of the list whose utility for the agent is above the
      threshold, in list order. */
  function Above(utility: Option<Bid> -> real, bids: seq<Bid>, threshold: real): (r: seq<Bid>)
    ensures forall b :: b in r <==> b in bids && utility(Some(b)) > threshold
  {
    if bids == [] then []
    else
      var last := bids[|bids| - 1];
      Above(utility, bids[..|bids| - 1], threshold) + if utility(Some(last)) > threshold then [last] else []
  }

  /** `Collections.shuffle` only reorders. */
  ghost predicate Permutes(shuffle: seq<Bid> -> seq<Bid>)
  {
    forall s :: multiset(shuffle(s)) == multiset(s)
  }

  /** The bids considered: all of them, or the first `maxListSize` of a
      shuffle when there are more. */
  function Considered(above: seq<Bid>, maxListSize: int, shuffle: seq<Bid> -> seq<Bid>): seq<Bid>
    requires Permutes(shuffle) && maxListSize >= 0
  {
    if |above| > maxListSize then
      assert |shuffle(above)| == |multiset(shuffle(above))| == |above|;
      shuffle(above)[..maxListSize]
    else above
  }

  /** `subList(0, maxListSize)` runs only when some bid is above the
      threshold, and fails on a negative list size. */
  predicate ListSizeFits(h: Hyperparameters, utility: Option<Bid> -> real, orderBids: seq<Bid>, threshold: real)
  {
    h.maxListSize >= 0 || Above(utility, orderBids, threshold) == []
  }

  /** `biddingStrategy`: the maximal bid when no bid is above the threshold;
      otherwise the considered bid the opponent values most, if the opponent
      values it more than the maximal bid. */
  function Strategy(h: Hyperparameters, utility: Option<Bid> -> real, maxBid: Option<Bid>, orderBids: seq<Bid>,
                    threshold: real, opp: Bid -> real, shuffle: seq<Bid> -> seq<Bid>): Option<Bid>
    requires Permutes(shuffle) && ListSizeFits(h, utility, orderBids, threshold)
  {
    var above := Above(utility, orderBids, threshold);
    if above == [] then maxBid
    else
      var considered := Considered(above, h.maxListSize, shuffle);
      match FirstMax(opp, considered, OppUtility(opp, maxBid))
      case None => maxBid
      case Some(k) => Some(considered[k])
  }

  /** The bid chosen is the maximal bid, or a bid of the list above the
      threshold; the maximal bid exactly when no bid is above the threshold
      or no considered bid beats it for the opponent. Nothing considered is
      worth more to the opponent than the bid chosen. */
  lemma StrategyMeaning(h: Hyperparameters, utility: Option<Bid> -> real, maxBid: Option<Bid>, orderBids: seq<Bid>,
                        threshold: real, opp: Bid -> real, shuffle: seq<Bid> -> seq<Bid>)
    requires Permutes(shuffle) && ListSizeFits(h, utility, orderBids, threshold)
    ensures var r := Strategy(h, utility, maxBid, orderBids, threshold, opp, shuffle);
            var above := Above(utility, orderBids, threshold);
            && (above == [] ==> r == maxBid)
            && (above != [] ==>
                  var considered := Considered(above, h.maxListSize, shuffle);
                  && (forall b :: b in considered ==> b in orderBids && utility(Some(b)) > threshold)
                  && (forall b :: b in considered ==> opp(b) <= OppUtility(opp, r))
                  && OppUtility(opp, maxBid) <= OppUtility(opp, r)
                  && (r == maxBid || (r.Some? && r.value in considered && OppUtility(opp, maxBid) < opp(r.value))))
  {
    var above := Above(utility, orderBids, threshold);
    if above != [] {
      var considered := Considered(above, h.maxListSize, shuffle);
      FirstMaxMeaning(opp, considered, OppUtility(opp, maxBid));
      forall b | b in considered ensures b in above {
        if |above| > h.maxListSize {
          assert b in shuffle(above);
          assert b in multiset(shuffle(above));
        }
      }
    }
  }

  /** The loop of `biddingStrategy`: starting from the maximal bid, keeps
      each bid the opponent values strictly more than the one kept. */
  method MostValued(opp: Bid -> real, considered: seq<Bid>, maxBid: Option<Bid>) returns (chosen: Option<Bid>)
    ensures chosen == match FirstMax(opp, considered, OppUtility(opp, maxBid))
                      case None => maxBid
                      case Some(k) => Some(considered[k])
  {
    chosen := maxBid;
    var floor := OppUtility(opp, maxBid);
    var lastOfferUtility := floor;
    for i := 0 to |considered|
      invariant var k := FirstMax(opp, considered[..i], floor);
                && chosen == (if k.None? then maxBid else Some(considered[k.value]))
                && lastOfferUtility == (if k.None? then floor else opp(considered[k.value]))
    {
      assert considered[..i + 1][..i] == considered[..i];
      var potentialUtility := opp(considered[i]);
      if potentialUtility > lastOfferUtility {
        lastOfferUtility := potentialUtility;
        chosen := Some(considered[i]);
      }
    }
    assert considered[..|considered|] == considered;
  }

  /** The Boulware target: from the utility of the maximal bid at ft = 0
      down to the reservation value at ft = 1. */
  function BoulwareTarget(reservation: real, maxUtility: real, ft: real): real
  {
    reservation + (1.0 - ft) * (maxUtility - reservation)
  }

  /** For ft in [0, 1] the target lies between the reservation value and the
      maximal utility, starts at the maximal utility and ends at the
      reservation value, and never rises as ft grows. */
  lemma BoulwareBounds(reservation: real, maxUtility: real, ft: real, later: real)
    requires reservation <= maxUtility && 0.0 <= ft <= later <= 1.0
    ensures reservation <= BoulwareTarget(reservation, maxUtility, ft) <= maxUtility
    ensures BoulwareTarget(reservation, maxUtility, 0.0) == maxUtility
    ensures BoulwareTarget(reservation, maxUtility, 1.0) == reservation
    ensures BoulwareTarget(reservation, maxUtility, later) <= BoulwareTarget(reservation, maxUtility, ft)
  {
    var gap := maxUtility - reservation;
    ScaleMonotone(1.0 - later, 1.0 - ft, gap);
    ScaleMonotone(0.0, 1.0 - ft, gap);
    ScaleMonotone(1.0 - ft, 1.0, gap);
    assert BoulwareTarget(reservation, maxUtility, ft) == reservation + (1.0 - ft) * gap;
    assert 1.0 * gap == gap;
  }

  /** Scaling by a non-negative factor keeps the order. */
  lemma ScaleMonotone(a: real, b: real, c: real)
    requires a <= b && 0.0 <= c
    ensures a * c <= b * c
  {
    var d := b - a;
    assert d * c >= 0.0;
    assert b * c == a * c + d * c;
  }

  /** How much the opponent conceded between its last two bids, as the
      opponent model sees it, never negative. */
  function TatValue(opp: Bid -> real, penultimate: Option<Bid>, last: Option<Bid>): (t: real)
    ensures t >= 0.0
    ensures t >= OppUtility(opp, penultimate) - OppUtility(opp, last)
    ensures t == 0.0 || t == OppUtility(opp, penultimate) - OppUtility(opp, last)
  {
    var difference := OppUtility(opp, penultimate) - OppUtility(opp, last);
    if difference > 0.0 then difference else 0.0
  }

  /** The tit-for-tat target: the old target lowered by the concession,
      scaled by how close the last offer is to the estimated Nash point. */
  function TitForTatTarget(minT: real, distFromNE: real, tatValue: real): real
  {
    minT - (1.0 - distFromNE) * tatValue
  }

  /** With a concession of at least 0 the target never rises while the
      distance is at most 1, is kept at distance 1, and rises past it. */
  lemma TitForTatConcedes(minT: real, distFromNE: real, tatValue: real)
    requires tatValue >= 0.0
    ensures distFromNE <= 1.0 ==> TitForTatTarget(minT, distFromNE, tatValue) <= minT
    ensures distFromNE == 1.0 ==> TitForTatTarget(minT, distFromNE, tatValue) == minT
    ensures distFromNE > 1.0 ==> TitForTatTarget(minT, distFromNE, tatValue) >= minT
  {
    if distFromNE <= 1.0 {
      assert (1.0 - distFromNE) * tatValue >= 0.0;
    } else {
      assert (1.0 - distFromNE) * tatValue <= 0.0;
    }
  }

  /** The Nash product of a bid: the agent's gain over its reservation value
      times the opponent's estimated utility. */
  function CurrentNash(utility: Option<Bid> -> real, opp: Bid -> real, reservation: real, bid: Option<Bid>): real
  {
    (utility(bid) - reservation) * OppUtility(opp, bid)
  }

  predicate GoodOfferNoTime(h: Hyperparameters, threshold: real, time: real, utilityLastOffer: real)
  {
    utilityLastOffer >= threshold && time >= h.finishTime
  }

  predicate OkayOfferNoTime(h: Hyperparameters, time: real, utilityOfBestBidFromOpp: real)
  {
    time >= h.giveUpTime && utilityOfBestBidFromOpp >= h.reservation
  }

  predicate GoodOfferButCouldBeBetter(threshold: real, utilityLastOffer: real, oppPotential: real, oppLast: real,
                                      utilityPotential: real)
  {
    utilityLastOffer >= threshold && oppPotential >= oppLast && utilityPotential >= utilityLastOffer
  }

  predicate BadOfferButTime(h: Hyperparameters, time: real)
  {
    time < h.giveUpTime
  }

  /** Declared with the threshold first and the utility of the last offer
      second. */
  predicate GreatOffer(threshold: real, utilityLastOffer: real)
  {
    utilityLastOffer >= threshold
  }

  /** Settles the answer to the opponent's last offer, once it is known
      which of the opponent's bids is best and which bid the strategy would
      offer. `GreatOffer` is called with the utility of the last offer
      first and the threshold second. */
  function Respond(h: Hyperparameters, utility: Option<Bid> -> real, opp: Bid -> real, threshold: real, time: real,
                   last: Bid, best: Option<Bid>, potential: Option<Bid>): Action
  {
    var utilityLastOffer := utility(Some(last));
    var utilityOfBest := utility(best);
    if GoodOfferNoTime(h, threshold, time, utilityLastOffer) then Accept(last)
    else if OkayOfferNoTime(h, time, utilityOfBest) then
      if utilityOfBest - utilityLastOffer > 0.1 then Accept(last) else Offer(best)
    else if GoodOfferButCouldBeBetter(threshold, utilityLastOffer, OppUtility(opp, potential), opp(last), utility(potential))
            || BadOfferButTime(h, time) then Offer(potential)
    else if GreatOffer(utilityLastOffer, threshold) then Accept(last)
    else EndNegotiation
  }

  /** Before the give-up time, an offer that is not accepted outright is
      countered with the strategy's bid. */
  lemma RespondEarly(h: Hyperparameters, utility: Option<Bid> -> real, opp: Bid -> real, threshold: real, time: real,
                     last: Bid, best: Option<Bid>, potential: Option<Bid>)
    requires time < h.giveUpTime
    ensures Respond(h, utility, opp, threshold, time, last, best, potential) ==
              if utility(Some(last)) >= threshold && time >= h.finishTime then Accept(last) else Offer(potential)
  {
  }

  /** The agent accepts exactly in three cases: the last offer meets the
      threshold at the finish time; past the give-up time the opponent's
      best bid is acceptable and beats the last offer by more than 0.1; or,
      neither a counter-offer nor the opponent's best bid is chosen and the
      threshold is AT LEAST the last offer's utility. It ends the
      negotiation only when the last offer is strictly ABOVE the threshold. */
  lemma RespondAcceptsAndEnds(h: Hyperparameters, utility: Option<Bid> -> real, opp: Bid -> real, threshold: real,
                              time: real, last: Bid, best: Option<Bid>, potential: Option<Bid>)
    ensures var a := Respond(h, utility, opp, threshold, time, last, best, potential);
            var uLast := utility(Some(last));
            var uBest := utility(best);
            var counter := GoodOfferButCouldBeBetter(threshold, uLast, OppUtility(opp, potential), opp(last), utility(potential))
                           || time < h.giveUpTime;
            && (a.Accept? <==>
                  || (uLast >= threshold && time >= h.finishTime)
                  || (time >= h.giveUpTime && uBest >= h.reservation && uBest - uLast > 0.1)
                  || (!(time >= h.giveUpTime && uBest >= h.reservation) && !counter && threshold >= uLast))
            && (a.Accept? ==> a.accepted == last)
            && (a == EndNegotiation ==> uLast > threshold && time >= h.giveUpTime && uBest < h.reservation)
  {
  }

  /** The swapped call accepts an offer below the threshold: late in the
      negotiation, with threshold 0.8, an offer worth 0.3 to the agent is
      accepted when the opponent never offered anything above the
      reservation value. */
  lemma GreatOfferAcceptsBelowThreshold()
    ensures var h := Hyperparameters(0.99, 0.9, 0.5, 10, 0.5);
            var last: Bid := [Assignment(1, "Food", "Fish")];
            var utility := (b: Option<Bid>) => 0.3;
            var opp := (b: Bid) => 0.0;
            && utility(Some(last)) < 0.8
            && Respond(h, utility, opp, 0.8, 0.95, last, Some(last), None) == Accept(last)
  {
  }

  /** Bids allowed at the start: 10% of the possible bids in a domain of at
      most 100 bids, 10 otherwise, less the bids already ranked, capped by
      the elicitation budget and never below 0. */
  function AllowedStartingBids(possibleBids: int, numOfOrderedBids: int, maximumAllowedElicitations: real): (r: real)
    ensures 0.0 <= r
    ensures r <= maximumAllowedElicitations || r == 0.0
    ensures (if possibleBids <= 100 then possibleBids as real * 0.1 else 10.0) <= numOfOrderedBids as real ==> r == 0.0
    ensures r <= (if possibleBids <= 100 then possibleBids as real * 0.1 else 10.0) - numOfOrderedBids as real || r == 0.0
  {
    var wanted := if possibleBids <= 100 then possibleBids as real * 0.1 - numOfOrderedBids as real
                  else 10.0 - numOfOrderedBids as real;
    var capped := if wanted <= maximumAllowedElicitations then wanted else maximumAllowedElicitations;
    if capped >= 0.0 then capped else 0.0
  }

  /** The elicitation budget: the maximal penalty over the cost of one
      elicitation. */
  function MaximumAllowedElicitations(maxElicitationPenalty: real, elicitationCost: real): (r: real)
    requires elicitationCost > 0.0
    ensures r * elicitationCost == maxElicitationPenalty
    ensures maxElicitationPenalty >= 0.0 ==> r >= 0.0
  {
    maxElicitationPenalty / elicitationCost
  }

  class Agent17 {
    const h: Hyperparameters
    /** The agent's utility space. */
    const utility: Option<Bid> -> real
    /** `utilitySpace.getMaxUtilityBid()`, None when it throws. */
    const maxBid: Option<Bid>
    /** The candidate bids: the user's ranking under uncertainty, the
        selector's bids otherwise. */
    const orderBids: seq<Bid>
    var myLastOffer: Option<Bid>
    var lastOffer: Option<Bid>
    var opponentBids: seq<Option<Bid>>
    var minT: real
    var placedBid: bool
    var round: int

    constructor(h: Hyperparameters, utility: Option<Bid> -> real, maxBid: Option<Bid>, orderBids: seq<Bid>)
      ensures this.h == h && this.utility == utility && this.maxBid == maxBid && this.orderBids == orderBids
      ensures myLastOffer == None && lastOffer == None && opponentBids == []
      ensures minT == 0.0 && !placedBid && round == 0
    {
      this.h := h;
      this.utility := utility;
      this.maxBid := maxBid;
      this.orderBids := orderBids;
      myLastOffer := None;
      lastOffer := None;
      opponentBids := [];
      minT := 0.0;
      placedBid := false;
      round := 0;
    }

    /** The Nash product of the maximal bid's gain and the opponent's
        estimate of its own best bid. */
    function OptimalNash(opp: Bid -> real): real
      reads this`opponentBids, this`lastOffer
    {
      (utility(maxBid) - h.reservation) * OppUtility(opp, BestOf(utility, opponentBids, lastOffer))
    }

    /** The distance of the last offer from the estimated Nash point. */
    function DistFromNE(opp: Bid -> real): real
      reads this`opponentBids, this`lastOffer
    {
      OptimalNash(opp) - CurrentNash(utility, opp, h.reservation, lastOffer)
    }

    /** The estimated Nash product is at least 0 when the maximal bid is
        worth the reservation value and the opponent values no bid below 0. */
    lemma OptimalNashNonnegative(opp: Bid -> real)
      requires utility(maxBid) >= h.reservation
      requires forall b :: opp(b) >= 0.0
      ensures OptimalNash(opp) >= 0.0
    {
    }

    /** When the last offer is the opponent's bid the agent likes best, the
        distance from Nash is the maximal bid's surplus over the last offer
        times the opponent's value of it: 0 when the last offer is worth
        the maximum, and at least 0 while it is worth no more. */
    lemma DistFromBestOffer(opp: Bid -> real)
      requires BestOf(utility, opponentBids, lastOffer) == lastOffer
      ensures DistFromNE(opp) == (utility(maxBid) - utility(lastOffer)) * OppUtility(opp, lastOffer)
      ensures utility(lastOffer) == utility(maxBid) ==> DistFromNE(opp) == 0.0
      ensures utility(lastOffer) <= utility(maxBid) && OppUtility(opp, lastOffer) >= 0.0 ==> DistFromNE(opp) >= 0.0
    {
    }

    /** The tit-for-tat concession of the opponent's last two bids. */
    function Tat(opp: Bid -> real): real
      requires |opponentBids| >= 2
      reads this`opponentBids, this`lastOffer
    {
      TatValue(opp, opponentBids[|opponentBids| - 2], lastOffer)
    }

    /** Loops over the opponent's bids, keeping the first with the highest
        utility above 0. */
    method BestBidFromOpponent() returns (bestBid: Option<Bid>)
      ensures bestBid == BestOf(utility, opponentBids, lastOffer)
    {
      bestBid := lastOffer;
      var utilityToBeat := 0.0;
      for i := 0 to |opponentBids|
        invariant var k := FirstMax(utility, opponentBids[..i], 0.0);
                  && bestBid == (if k.None? then lastOffer else opponentBids[k.value])
                  && utilityToBeat == (if k.None? then 0.0 else utility(opponentBids[k.value]))
      {
        assert opponentBids[..i + 1][..i] == opponentBids[..i];
        var potentialUtility := utility(opponentBids[i]);
        if potentialUtility > utilityToBeat {
          utilityToBeat := potentialUtility;
          bestBid := opponentBids[i];
        }
      }
      assert opponentBids[..|opponentBids|] == opponentBids;
    }

    /** `optimalNash`. */
    method ComputeOptimalNash(opp: Bid -> real) returns (n: real)
      ensures n == OptimalNash(opp)
    {
      var best := BestBidFromOpponent();
      n := (utility(maxBid) - h.reservation) * OppUtility(opp, best);
    }

    /** Offers the bid the opponent values most among the considered bids
        above the threshold, or the maximal bid; remembers it as the
        agent's last offer. */
    method BiddingStrategy(threshold: real, opp: Bid -> real, shuffle: seq<Bid> -> seq<Bid>) returns (bid: Option<Bid>)
      requires Permutes(shuffle) && ListSizeFits(h, utility, orderBids, threshold)
      modifies this`myLastOffer
      ensures bid == myLastOffer == Strategy(h, utility, maxBid, orderBids, threshold, opp, shuffle)
    {
      var above := Above(utility, orderBids, threshold);
      if |above| == 0 {
        myLastOffer := maxBid;
      } else {
        var considered := above;
        if |above| > h.maxListSize {
          var shuffled := shuffle(above);
          assert |shuffled| == |multiset(shuffled)| == |above|;
          considered := shuffled[..h.maxListSize];
        }
        assert considered == Considered(above, h.maxListSize, shuffle);
        var chosen := MostValued(opp, considered, maxBid);
        myLastOffer := chosen;
      }
      bid := myLastOffer;
    }

    /** `Boulware`: sets the target for time factor `ft`, the clock's time
        raised to 1 / boulwareBeta. */
    method Boulware(ft: real) returns (target: real)
      modifies this`minT
      ensures target == minT == BoulwareTarget(h.reservation, utility(maxBid), ft)
    {
      minT := h.reservation + (1.0 - ft) * (utility(maxBid) - h.reservation);
      target := minT;
    }

    /** `titForTat`: lowers the target by the opponent's last concession,
        less as the last offer lies further from the Nash point. The source
        reads the opponent's penultimate bid without a check. */
    method TitForTat(opp: Bid -> real) returns (target: real)
      requires |opponentBids| >= 2
      modifies this`minT
      ensures target == minT == TitForTatTarget(old(minT), DistFromNE(opp), Tat(opp))
    {
      var penultimateBid := opponentBids[|opponentBids| - 2];
      var difOfOpponentsLastTwo := OppUtility(opp, penultimateBid) - OppUtility(opp, lastOffer);
      var tatValue := if difOfOpponentsLastTwo > 0.0 then difOfOpponentsLastTwo else 0.0;
      var optimal := ComputeOptimalNash(opp);
      var distFromNE := optimal - CurrentNash(utility, opp, h.reservation, lastOffer);
      minT := minT - (1.0 - distFromNE) * tatValue;
      target := minT;
    }

    /** `minTarget`: counts the round; Boulware before the transition time,
        tit for tat from then on. */
    method MinTarget(time: real, ft: real, opp: Bid -> real) returns (target: real)
      requires time >= h.transitionTime ==> |opponentBids| >= 2
      modifies this`minT, this`round
      ensures round == old(round) + 1 && target == minT
      ensures time < h.transitionTime ==> minT == BoulwareTarget(h.reservation, utility(maxBid), ft)
      ensures time >= h.transitionTime ==> minT == TitForTatTarget(old(minT), DistFromNE(opp), Tat(opp))
    {
      round := round + 1;
      if time < h.transitionTime {
        target := Boulware(ft);
      } else {
        target := TitForTat(opp);
      }
    }

    /** The target `minTarget` sets at `time`. */
    function NextTarget(time: real, ft: real, opp: Bid -> real): real
      requires time >= h.transitionTime ==> |opponentBids| >= 2
      reads this`minT, this`opponentBids, this`lastOffer
    {
      if time < h.transitionTime then BoulwareTarget(h.reservation, utility(maxBid), ft)
      else TitForTatTarget(minT, DistFromNE(opp), Tat(opp))
    }

    /** `chooseAction`: before both sides have bid, offers the strategy's
        bid; afterwards answers the opponent's last offer as `Respond`
        settles it, against the new target. Offering a bid marks that the
        agent has bid. */
    method ChooseAction(time: real, ft: real, opp: Bid -> real, shuffle: seq<Bid> -> seq<Bid>) returns (action: Action)
      requires Permutes(shuffle)
      requires time >= h.transitionTime ==> |opponentBids| >= 2
      requires var target := NextTarget(time, ft, opp);
               || ListSizeFits(h, utility, orderBids, target)
               || (lastOffer.Some? && myLastOffer.Some? &&
                   Settled(target, time, lastOffer.value, BestOf(utility, opponentBids, lastOffer)))
      modifies this`minT, this`round, this`myLastOffer, this`placedBid
      ensures round == old(round) + 1
      ensures time < h.transitionTime ==> minT == BoulwareTarget(h.reservation, utility(maxBid), ft)
      ensures time >= h.transitionTime ==> minT == TitForTatTarget(old(minT), DistFromNE(opp), Tat(opp))
      ensures placedBid == (old(placedBid) || action.Offer?)
      ensures !(lastOffer.Some? && old(myLastOffer).Some?) ==>
                && myLastOffer == Strategy(h, utility, maxBid, orderBids, minT, opp, shuffle)
                && action == Offer(myLastOffer)
      ensures lastOffer.Some? && old(myLastOffer).Some? ==>
                var best := BestOf(utility, opponentBids, lastOffer);
                && myLastOffer == (if Settled(minT, time, lastOffer.value, best) then old(myLastOffer)
                                   else Strategy(h, utility, maxBid, orderBids, minT, opp, shuffle))
                && action == Respond(h, utility, opp, minT, time, lastOffer.value, best, myLastOffer)
    {
      var threshold := MinTarget(time, ft, opp);
      if lastOffer.Some? && myLastOffer.Some? {
        action := AnswerOffer(threshold, time, opp, shuffle);
      } else {
        var bid := BiddingStrategy(threshold, opp, shuffle);
        placedBid := true;
        action := Offer(bid);
      }
    }

    /** The answer is settled before the strategy is consulted: the last
        offer is good at the finish time, or the opponent's best bid is
        acceptable past the give-up time. */
    predicate Settled(threshold: real, time: real, last: Bid, best: Option<Bid>)
    {
      GoodOfferNoTime(h, threshold, time, utility(Some(last))) || OkayOfferNoTime(h, time, utility(best))
    }

    /** The branches of `chooseAction` that answer the opponent's last
        offer, against the target `threshold`. */
    method AnswerOffer(threshold: real, time: real, opp: Bid -> real, shuffle: seq<Bid> -> seq<Bid>) returns (action: Action)
      requires Permutes(shuffle) && lastOffer.Some?
      requires Settled(threshold, time, lastOffer.value, BestOf(utility, opponentBids, lastOffer))
               || ListSizeFits(h, utility, orderBids, threshold)
      modifies this`myLastOffer, this`placedBid
      ensures placedBid == (old(placedBid) || action.Offer?)
      ensures var best := BestOf(utility, opponentBids, lastOffer);
              && myLastOffer == (if Settled(threshold, time, lastOffer.value, best) then old(myLastOffer)
                                 else Strategy(h, utility, maxBid, orderBids, threshold, opp, shuffle))
              && action == Respond(h, utility, opp, threshold, time, lastOffer.value, best, myLastOffer)
    {
      var utilityLastOffer := utility(lastOffer);
      var bestBidFromOpp := BestBidFromOpponent();
      var utilityOfBestBidFromOpp := utility(bestBidFromOpp);
      if GoodOfferNoTime(h, threshold, time, utilityLastOffer) {
        return Accept(lastOffer.value);
      }
      if OkayOfferNoTime(h, time, utilityOfBestBidFromOpp) {
        if utilityOfBestBidFromOpp - utilityLastOffer > 0.1 {
          return Accept(lastOffer.value);
        }
        placedBid := true;
        return Offer(bestBidFromOpp);
      }
      var potentialBid := BiddingStrategy(threshold, opp, shuffle);
      if GoodOfferButCouldBeBetter(threshold, utilityLastOffer, OppUtility(opp, potentialBid), OppUtility(opp, lastOffer),
                                   utility(potentialBid))
         || BadOfferButTime(h, time) {
        placedBid := true;
        return Offer(potentialBid);
      }
      if GreatOffer(utilityLastOffer, threshold) {
        return Accept(lastOffer.value);
      }
      return EndNegotiation;
    }

    /** `receiveMessage`: an offer becomes the last offer and joins the
        opponent's bids; other messages change nothing here. */
    method ReceiveMessage(message: Action)
      modifies this`lastOffer, this`opponentBids
      ensures message.Offer? ==> lastOffer == message.bid && opponentBids == old(opponentBids) + [message.bid]
      ensures !message.Offer? ==> lastOffer == old(lastOffer) && opponentBids == old(opponentBids)
    {
      if message.Offer? {
        lastOffer := message.bid;
        opponentBids := opponentBids + [lastOffer];
      }
    }
  }
}
