/**
  The guarded placement transaction (`place_bid` in app/auctions/tx_bid.py),
  taken as one atomic step over a snapshot of the store: the item lookup, the
  schedule and window guards, the duplicate-bidder guard, the minimum first
  bid, then the resolver and the row mutation.
 */
module Placement {
  import opened Wrappers
  import opened Bids
  import opened Resolver
  import opened Mutation

  /** The fields of an item a placement reads; instants are UTC seconds. */
  datatype Item = Item(startAt: Option<int>, endAt: Option<int>, minStartPrice: Option<real>)

  /** A snapshot of the store: the items by id and the bid rows of each item. */
  datatype Store = Store(items: map<int, Item>, bids: map<int, seq<Bid>>)

  /** What a successful placement reports back. */
  datatype Receipt = Receipt(itemId: int, winnerUserId: int, amount: real)

  /** A successful placement: the receipt and the store after the mutation. */
  datatype Placement = Placement(receipt: Receipt, store: Store)

  /** The rows of an item; an item nobody has bid on has none. */
  function BidsOf(store: Store, itemId: int): seq<Bid> {
    if itemId in store.bids then store.bids[itemId] else []
  }

  /** Both ends of the bidding window are set. */
  predicate Scheduled(item: Item) {
    item.startAt.Some? && item.endAt.Some?
  }

  /** `now` lies in the half-open window [start, end). */
  predicate InWindow(item: Item, now: int)
    requires Scheduled(item)
  {
    item.startAt.value <= now < item.endAt.value
  }

  /** The floor for a first bid; an unset minimum counts as zero. */
  function MinStart(item: Item): real {
    item.minStartPrice.GetOr(0.0)
  }

  /** The item exists and is open for bids at `now`. */
  ghost predicate Open(store: Store, itemId: int, now: int) {
    itemId in store.items && Scheduled(store.items[itemId]) && InWindow(store.items[itemId], now)
  }

  /** The uniqueness the bids table keeps: at most one row per (item, user). */
  ghost predicate OneRowPerUser(store: Store) {
    forall id :: id in store.bids ==> UniqueUsers(store.bids[id])
  }

  /**
    `place_bid`. Each guard fails with its own error exactly when every
    earlier guard passed and it does not; a success reports on the requested
    item, comes from an actor holding no row there, and changes no item and
    no other item's rows.
   */
  function PlaceBid(store: Store, itemId: int, userId: int, now: int, amount: real,
                    maxBudget: Option<real>, bidIncrement: Option<real>): (r: Result<Placement, BidError>)
    ensures r == Failure(NotFound) <==> itemId !in store.items
    ensures r == Failure(BadSchedule) <==> itemId in store.items && !Scheduled(store.items[itemId])
    ensures r == Failure(OutsideWindow) <==>
              itemId in store.items && Scheduled(store.items[itemId]) && !InWindow(store.items[itemId], now)
    ensures r == Failure(AlreadyBid) <==> Open(store, itemId, now) && HoldsRow(BidsOf(store, itemId), userId)
    ensures r == Failure(BelowMinimum) <==>
              && Open(store, itemId, now)
              && !HoldsRow(BidsOf(store, itemId), userId)
              && |BidsOf(store, itemId)| == 0
              && amount < MinStart(store.items[itemId])
    ensures r == Failure(MustExceed) ==> Open(store, itemId, now) && |BidsOf(store, itemId)| > 0
    ensures r.Success? ==>
              && Open(store, itemId, now)
              && !HoldsRow(BidsOf(store, itemId), userId)
              && r.value.receipt.itemId == itemId
              && r.value.store.items == store.items
              && forall id :: id != itemId ==> BidsOf(r.value.store, id) == BidsOf(store, id)
  {
    if itemId !in store.items then Failure(NotFound)
    else
      var item := store.items[itemId];
      if !Scheduled(item) then Failure(BadSchedule)
      else if !InWindow(item, now) then Failure(OutsideWindow)
      else
        var bids := BidsOf(store, itemId);
        if CheckBidPlaced(bids, userId).Fail? then Failure(AlreadyBid)
        else if |bids| == 0 && amount < MinStart(item) then Failure(BelowMinimum)
        else
          match ComputeWinner(bids, userId, amount, maxBudget, bidIncrement)
          case Failure(e) => Failure(e)
          case Success(d) =>
            var rows := ApplyMutation(bids, userId, d);
            Success(Placement(Receipt(itemId, d.winnerUserId, d.winnerAmount),
                              store.(bids := store.bids[itemId := rows])))
  }

  /**
    After a successful placement the reported winner holds the leading row of
    the item, at exactly the reported amount, and every other row is strictly
    below it; so the `max(old, amount)` in the mutation always lands on the
    new amount.
   */
  lemma PlaceBidWinnerLeads(store: Store, itemId: int, userId: int, now: int, amount: real,
                            maxBudget: Option<real>, bidIncrement: Option<real>) returns (k: int)
    requires PlaceBid(store, itemId, userId, now, amount, maxBudget, bidIncrement).Success?
    ensures var p := PlaceBid(store, itemId, userId, now, amount, maxBudget, bidIncrement).value;
            var rows := BidsOf(p.store, itemId);
            && IsLeader(rows, k)
            && rows[k].userId == p.receipt.winnerUserId
            && rows[k].amount == p.receipt.amount
            && forall j :: 0 <= j < |rows| && j != k ==> rows[j].amount < p.receipt.amount
  {
    var bids := BidsOf(store, itemId);
    var d := ComputeWinner(bids, userId, amount, maxBudget, bidIncrement).value;
    var rows := ApplyMutation(bids, userId, d);
    assert BidsOf(PlaceBid(store, itemId, userId, now, amount, maxBudget, bidIncrement).value.store, itemId) == rows;
    var w := 0;
    if d.winnerUserId != userId {
      w :| 0 <= w < |bids| && IsProxyRaise(bids[w], amount, d);
    }
    k := MutationCrownsWinner(bids, userId, d, w);
  }

  /**
    A successful placement keeps at most one row per user on every item: a
    new row is only ever the actor's, and the actor held none.
   */
  lemma PlaceBidKeepsOneRowPerUser(store: Store, itemId: int, userId: int, now: int, amount: real,
                                   maxBudget: Option<real>, bidIncrement: Option<real>)
    requires OneRowPerUser(store)
    requires PlaceBid(store, itemId, userId, now, amount, maxBudget, bidIncrement).Success?
    ensures OneRowPerUser(PlaceBid(store, itemId, userId, now, amount, maxBudget, bidIncrement).value.store)
  {
  }

  /**
    Rows only move forward: an existing row keeps its holder and proxy and
    never loses amount, and at most one row is added, which is then the
    actor's winning row at the reported amount with the actor's own proxy. A
    losing actor gets no row at all.
   */
  lemma PlaceBidRowsEvolve(store: Store, itemId: int, userId: int, now: int, amount: real,
                           maxBudget: Option<real>, bidIncrement: Option<real>)
    requires PlaceBid(store, itemId, userId, now, amount, maxBudget, bidIncrement).Success?
    ensures var p := PlaceBid(store, itemId, userId, now, amount, maxBudget, bidIncrement).value;
            var before := BidsOf(store, itemId);
            var after := BidsOf(p.store, itemId);
            && |before| <= |after| <= |before| + 1
            && (forall i :: 0 <= i < |before| ==>
                  SameHolder(after[i], before[i]) && before[i].amount <= after[i].amount)
            && (|after| == |before| + 1 <==> p.receipt.winnerUserId == userId)
            && (|after| == |before| + 1 ==>
                  after[|before|] == Bid(userId, p.receipt.amount, maxBudget, bidIncrement))
            && (p.receipt.winnerUserId != userId ==> !HoldsRow(after, userId))
  {
  }

  /**
    On an open item with no rows, a bid at or above the minimum start price
    is accepted: the actor wins at their own amount and holds the only row.
   */
  lemma FirstBidAccepted(store: Store, itemId: int, userId: int, now: int, amount: real,
                         maxBudget: Option<real>, bidIncrement: Option<real>)
    requires Open(store, itemId, now) && |BidsOf(store, itemId)| == 0
    requires amount >= MinStart(store.items[itemId])
    ensures var r := PlaceBid(store, itemId, userId, now, amount, maxBudget, bidIncrement);
            && r.Success?
            && r.value.receipt == Receipt(itemId, userId, amount)
            && BidsOf(r.value.store, itemId) == [Bid(userId, amount, maxBudget, bidIncrement)]
  {
  }

  /**
    Once every guard has passed, the placement is the resolver's decision:
    it fails exactly when the resolver rejects, with the same error, and on
    success it reports the resolver's winner and amount and stores the rows
    the mutation produces.
   */
  lemma PlaceBidResolves(store: Store, itemId: int, userId: int, now: int, amount: real,
                         maxBudget: Option<real>, bidIncrement: Option<real>)
    requires Open(store, itemId, now)
    requires !HoldsRow(BidsOf(store, itemId), userId)
    requires |BidsOf(store, itemId)| > 0 || amount >= MinStart(store.items[itemId])
    ensures var bids := BidsOf(store, itemId);
            var c := ComputeWinner(bids, userId, amount, maxBudget, bidIncrement);
            var r := PlaceBid(store, itemId, userId, now, amount, maxBudget, bidIncrement);
            && (r.Success? <==> c.Success?)
            && (r.Failure? ==> r.error == c.error)
            && (r.Success? ==>
                  && r.value.receipt == Receipt(itemId, c.value.winnerUserId, c.value.winnerAmount)
                  && BidsOf(r.value.store, itemId) == ApplyMutation(bids, userId, c.value))
  {
  }
}
