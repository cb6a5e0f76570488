/**
  Turning a resolver decision into row changes (`apply_bid_mutation` in
  app/auctions/tx_bid.py): a winning actor gets a new row; otherwise the
  winner's existing row is raised, never lowered.
 */
module Mutation {
  import opened Wrappers
  import opened Bids
  import opened Resolver

  /** Row `i` is the first row held by `userId`, the one the update loop stops at. */
  ghost predicate IsFirstRowOf(bids: seq<Bid>, userId: int, i: int) {
    && 0 <= i < |bids|
    && bids[i].userId == userId
    && forall j :: 0 <= j < i ==> bids[j].userId != userId
  }

  /**
    The `for ... break` loop: the first row of `userId` has its amount raised
    to `max(old, amount)`; every other row, and that row's holder and proxy,
    stay as they were. With no row of `userId` nothing changes.
   */
  function RaiseFirstRow(bids: seq<Bid>, userId: int, amount: real): (r: seq<Bid>)
    ensures |r| == |bids|
    ensures forall i :: 0 <= i < |bids| ==> SameHolder(r[i], bids[i]) && bids[i].amount <= r[i].amount
    ensures forall i :: 0 <= i < |bids| && !IsFirstRowOf(bids, userId, i) ==> r[i] == bids[i]
    ensures forall i :: IsFirstRowOf(bids, userId, i) ==> r[i].amount == Max(bids[i].amount, amount)
  {
    if |bids| == 0 then []
    else if bids[0].userId == userId then
      [bids[0].(amount := Max(bids[0].amount, amount))] + bids[1..]
    else
      var rest := RaiseFirstRow(bids[1..], userId, amount);
      assert forall i :: 1 <= i < |bids| ==>
        bids[i] == bids[1..][i - 1] && (IsFirstRowOf(bids, userId, i) <==> IsFirstRowOf(bids[1..], userId, i - 1));
      [bids[0]] + rest
  }

  /**
    `apply_bid_mutation`. When the actor wins, exactly one row
    `(actor, winning amount, actor's budget, actor's increment)` is appended.
    Otherwise no row is added and no holder or proxy changes; only the
    winner's first row may move, to `max(old, winning amount)`, and no amount
    ever decreases.
   */
  function ApplyMutation(bids: seq<Bid>, actor: int, d: Decision): (r: seq<Bid>)
    ensures d.winnerUserId == actor ==>
              r == bids + [Bid(actor, d.winnerAmount, d.maxBudget, d.bidIncrement)]
    ensures d.winnerUserId != actor ==> |r| == |bids|
    ensures d.winnerUserId != actor ==>
              forall i :: 0 <= i < |bids| ==> SameHolder(r[i], bids[i]) && bids[i].amount <= r[i].amount
    ensures d.winnerUserId != actor ==>
              forall i :: 0 <= i < |bids| && !IsFirstRowOf(bids, d.winnerUserId, i) ==> r[i] == bids[i]
    ensures d.winnerUserId != actor ==>
              forall i :: IsFirstRowOf(bids, d.winnerUserId, i) ==> r[i].amount == Max(bids[i].amount, d.winnerAmount)
  {
    if d.winnerUserId == actor then
      bids + [Bid(actor, d.winnerAmount, d.maxBudget, d.bidIncrement)]
    else
      RaiseFirstRow(bids, d.winnerUserId, d.winnerAmount)
  }

  /**
    When the winning amount beats every existing row and the winner is the
    actor or already holds a row, the mutated rows are led by the winner's row
    at exactly the winning amount, strictly above every other row.
   */
  lemma MutationCrownsWinner(bids: seq<Bid>, actor: int, d: Decision, w: int) returns (k: int)
    requires forall j :: 0 <= j < |bids| ==> bids[j].amount < d.winnerAmount
    requires d.winnerUserId == actor || (0 <= w < |bids| && bids[w].userId == d.winnerUserId)
    ensures var rows := ApplyMutation(bids, actor, d);
            && IsLeader(rows, k)
            && rows[k].userId == d.winnerUserId
            && rows[k].amount == d.winnerAmount
            && forall j :: 0 <= j < |rows| && j != k ==> rows[j].amount < d.winnerAmount
  {
    var rows := ApplyMutation(bids, actor, d);
    if d.winnerUserId == actor {
      k := |bids|;
    } else {
      k := FirstRowOf(bids, w);
      assert rows[k].amount == d.winnerAmount;
    }
  }

  /** The first row held by the user of row `w` exists. */
  lemma {:induction false} FirstRowOf(bids: seq<Bid>, w: int) returns (i: int)
    requires 0 <= w < |bids|
    ensures IsFirstRowOf(bids, bids[w].userId, i)
    decreases w
  {
    if forall j :: 0 <= j < w ==> bids[j].userId != bids[w].userId {
      i := w;
    } else {
      var j :| 0 <= j < w && bids[j].userId == bids[w].userId;
      i := FirstRowOf(bids, j);
    }
  }
}
