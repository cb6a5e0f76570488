# Proxy-bid resolution engine, modelled in Dafny

This project models the bid-placement core of the poison-auction service,
`app/auctions/tx_bid.py`. A bidder places a bid on an item. The bid may carry
a proxy: a maximum budget and a step by which the system raises the bidder's
row on their behalf. The engine decides who leads the item and at what price,
or refuses the bid. It then records that decision in the item's bid rows.

One placement is modelled as one atomic step over a snapshot of the store.
Money is `real`, so sums are exact. Instants are `int` ticks of an abstract UTC clock.

Modules (one file each):

- `Wrappers` (`wrappers.dfy`): `Option`, `Result` and `Outcome`.
- `Bids` (`bids.dfy`): the `Bid` row, the error kinds, and the row helpers.
  These are `max_cap`, `check_bid_placed`, and the first-maximum selection
  that Python's `max(..., key=...)` makes.
- `Resolver` (`resolver.dfy`): `compute_winner`, stated against a
  declarative description of the leader and the best contender.
- `Mutation` (`mutation.dfy`): `apply_bid_mutation`.
- `Placement` (`placement.dfy`): `place_bid` with its guards in source order,
  and the invariants a successful placement keeps.
- `Scenarios` (`scenarios.dfy`): concrete auction situations worked through
  the model.

Ties in `max(..., key=...)` go to the first row in list order that reaches
the maximum, as in Python. `IsFirstMax` states this, and `FirstMaxUnique`
shows the choice is determined.

Notes on the code's behaviour:

- A winning actor gets a new row appended; no existing row is replaced.
  The duplicate-bidder guard ensures the actor held no row before.
- The unset-schedule case and the outside-window case are both HTTP 400.
  The model keeps them apart as `BadSchedule` and `OutsideWindow`.
- `compute_winner`, taken on its own, does not exclude the actor from being
  the defending leader. Only the contender list excludes the actor.
  `place_bid` never reaches that case because of its duplicate guard.

## Model

| member | source | states |
|---|---|---|
| Bids.MaxCap | app/auctions/tx_bid.py:27-29 | A row without a budget defends exactly its own amount. A cap that differs from the amount is the row's budget, which may lie below the amount. |
| Bids.FirstArgMax | app/auctions/tx_bid.py:32 | `max(..., key=...)` on a non-empty list picks a position whose key is maximal, and no earlier element reaches that key. |
| Bids.ScanMax | app/auctions/tx_bid.py:32 | The left-to-right scan behind `max` replaces its candidate only on a strictly greater key, so it ends at the first maximum. |
| Bids.FirstMaxUnique | app/auctions/tx_bid.py:32 | At most one position is the first maximum, so the leader and the best contender are determined. |
| Bids.CheckBidPlaced | app/auctions/tx_bid.py:22-25 | The guard fails with AlreadyBid exactly when some row belongs to the user. It passes exactly when none does. |
| Resolver.Contenders | app/auctions/tx_bid.py:50 | The contender list holds only rows from the item that belong to other users and have a budget and a positive step. It holds every such row, and it is empty exactly when no such row exists. |
| Resolver.BestOfContenders | app/auctions/tx_bid.py:50-52 | The row `max(contenders, key=max_cap)` picks is the first contender in row order whose cap is the largest among all contenders. |
| Resolver.BestContenderUnique | app/auctions/tx_bid.py:52 | At most one row is the best contender. |
| Resolver.ComputeWinner | app/auctions/tx_bid.py:31-56 | The actor's proxy fields come back unchanged, and MustExceed is the only rejection. With no rows the actor wins at their amount. A winner other than the actor is a row auto-raising by at most one step, above its old amount, within its cap. A successful decision strictly beats every existing row. |
| Resolver.BelowLeaderRejected | app/auctions/tx_bid.py:39-47 | A bid strictly below the leader's amount is always rejected with MustExceed. |
| Resolver.TieWithLeader | app/auctions/tx_bid.py:39-47 | A bid equal to the leader's amount succeeds exactly when the leader has a positive step and a cap above the amount. The leader then keeps the lead at `min(cap, amount + step)`. |
| Resolver.TieAgainstNonDefenderRejected | app/auctions/tx_bid.py:42-47 | A leader with no increment, or an increment of zero or less, is never displaced by an equal bid. That bid is rejected. |
| Resolver.AboveLeaderUncontested | app/auctions/tx_bid.py:48-56 | Above the leader, with no row of another user able to fight back, the actor wins at their own amount. |
| Resolver.ResolverPicks | app/auctions/tx_bid.py:32-52 | The row `max(bids, key=amount)` picks is the leader, and the row `max(contenders, key=max_cap)` picks is the best contender. |
| Resolver.ContenderAnswers | app/auctions/tx_bid.py:48-55 | Above the leader, when the best contender's cap reaches the amount, that contender wins at `min(cap, amount + step)`. |
| Resolver.ContenderOutbid | app/auctions/tx_bid.py:48-56 | Above the leader and above the best contender's cap, the actor wins at their own amount. |
| Resolver.ActorProxyIgnored | app/auctions/tx_bid.py:34-56 | The winner and the price do not depend on the budget or increment the actor submits. |
| Mutation.RaiseFirstRow | app/auctions/tx_bid.py:63-67 | Only the winner's first row changes, to `max(old, amount)`. Its holder and proxy are kept, every other row is unchanged, and no amount decreases. |
| Mutation.ApplyMutation | app/auctions/tx_bid.py:58-67 | If the actor wins, exactly one row is appended: the actor, the winning amount, and the actor's budget and increment. Otherwise no row is added, only the winner's first row may rise, and nothing else changes. |
| Mutation.MutationCrownsWinner | app/auctions/tx_bid.py:58-67 | Given a winning amount above every row, the mutated rows are led by the winner's row at exactly that amount. Every other row stays strictly below it. |
| Mutation.FirstRowOf | app/auctions/tx_bid.py:64-67 | For a user who holds a row, the loop finds a first row of theirs to stop at. |
| Placement.PlaceBid | app/auctions/tx_bid.py:69-99 | The guards run in order: NotFound, BadSchedule, OutsideWindow of `[start, end)`, AlreadyBid, then BelowMinimum for a first bid (an unset minimum counts as 0). Each fails exactly when every earlier one passed and it does not. MustExceed needs existing rows. A success reports on the requested item and changes no item and no other item's rows. |
| Placement.PlaceBidResolves | app/auctions/tx_bid.py:96-99 | Once every guard passes, the placement fails exactly when the resolver rejects, with the same error. On success it reports the resolver's winner and amount and stores exactly the rows the mutation produces. |
| Placement.PlaceBidWinnerLeads | app/auctions/tx_bid.py:96-99 | After a success, the reported winner holds the item's leading row at exactly the reported amount, strictly above every other row. |
| Placement.PlaceBidKeepsOneRowPerUser | app/auctions/tx_bid.py:88-97 | A successful placement keeps at most one row per user on every item. |
| Placement.PlaceBidRowsEvolve | app/auctions/tx_bid.py:96-97 | Existing rows keep their holder and proxy and never lose amount. At most one row is added, and it is the winning actor's row. A losing actor gets no row. |
| Placement.FirstBidAccepted | app/auctions/tx_bid.py:91-99 | On an open item with no rows, a bid at or above the minimum is accepted. The actor wins at their own amount and holds the only row. |
| Scenarios.DefenderOutbidsChallenger | app/auctions/tx_bid.py:49-55 | A defender at 10 with budget 25 and step 2, challenged at 15, leads at 17. |
| Scenarios.DefenderCapTooLow | app/auctions/tx_bid.py:49-56 | A defender with budget 12, challenged at 15, cannot answer, so the challenger leads at 15. |
| Scenarios.EqualBidAgainstPlainLeader | app/auctions/tx_bid.py:39-47 | An equal bid against a leader with no proxy is rejected. |
| Scenarios.EqualBidAgainstProxyLeader | app/auctions/tx_bid.py:39-45 | An equal bid of 10 against a proxy leader with budget 20 and step 3 leaves the leader at 13. |
| Scenarios.FirstBidAgainstMinimum | app/auctions/tx_bid.py:91-94 | With a minimum of 5, a first bid of 4 is refused and a first bid of 5 is accepted. |
| Scenarios.BidAtEndRefused | app/auctions/tx_bid.py:85-86 | A bid exactly at the end instant falls outside the half-open window. |

## Left out

- Row locking (`with_for_update`), the async session, `flush` and `commit`: a placement is one atomic step over a store snapshot, and the `fetch_*_for_update` calls are plain reads.
- The clock: `datetime.now` becomes the parameter `now`. Naive timestamps are read as UTC (lines 79-82), so all instants are plain UTC integers.
- Python float rounding: money is exact `real`. Non-finite amounts (NaN, infinities), which the request body accepts as floats, are outside the model.
- The order of fetched rows: the bid query has no `ORDER BY`, so the list order that breaks ties in `max` is whatever the database returns. The model takes the stored order as given, raises rows in place and appends new rows at the end.
- Sub-tick precision of timestamps: the clock is an abstract integer tick, so `start_at <= now < end_at` is compared at that granularity.
- The HTTP endpoint wrapper (`app/auctions/endpoints.py`) and the status codes: errors are the `BidError` kinds.
- Lifecycle status derivation, reconciliation, closing and settlement, balance debit, awards and auction-pool maintenance: no code for them is part of this model.
- The rate limiter, authentication, request-id middleware, configuration, migrations and the frontend: they are plumbing around external libraries and stores.
