/** Concrete placements worked through the model, one per auction situation. */
module Scenarios {
  import opened Wrappers
  import opened Bids
  import opened Resolver
  import opened Placement

  /** A defender at 10 with budget 25 and step 2 answers a challenge of 15 by leading at 17. */
  lemma DefenderOutbidsChallenger()
    ensures ComputeWinner([Bid(1, 10.0, Some(25.0), Some(2.0))], 2, 15.0, None, None)
            == Success(Decision(1, 17.0, None, None))
  {
  }

  /** A defender whose budget 12 is below the challenge of 15 cannot answer; the challenger leads at 15. */
  lemma DefenderCapTooLow()
    ensures ComputeWinner([Bid(1, 10.0, Some(12.0), Some(2.0))], 2, 15.0, None, None)
            == Success(Decision(2, 15.0, None, None))
  {
  }

  /** A leader without a proxy is not displaced by an equal bid. */
  lemma EqualBidAgainstPlainLeader()
    ensures ComputeWinner([Bid(1, 10.0, None, None)], 2, 10.0, None, None) == Failure(MustExceed)
  {
  }

  /** A proxy leader at 10 with budget 20 and step 3 answers an equal bid by leading at 13. */
  lemma EqualBidAgainstProxyLeader()
    ensures ComputeWinner([Bid(1, 10.0, Some(20.0), Some(3.0))], 2, 10.0, None, None)
            == Success(Decision(1, 13.0, None, None))
  {
  }

  /** The first bid on an open item: 4 is below a minimum of 5 and refused, 5 is accepted. */
  lemma FirstBidAgainstMinimum()
    ensures var store := Store(map[7 := Item(Some(100), Some(200), Some(5.0))], map[]);
            && PlaceBid(store, 7, 1, 150, 4.0, None, None) == Failure(BelowMinimum)
            && PlaceBid(store, 7, 1, 150, 5.0, None, None).Success?
  {
  }

  /** Bidding exactly at the end instant is outside the half-open window. */
  lemma BidAtEndRefused()
    ensures var store := Store(map[7 := Item(Some(100), Some(200), None)], map[]);
            PlaceBid(store, 7, 1, 200, 5.0, None, None) == Failure(OutsideWindow)
  {
  }
}
