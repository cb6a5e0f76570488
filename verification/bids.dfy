/**
  Bid rows of one item, and the helpers of app/auctions/tx_bid.py that read
  them: the cap a proxy may reach, the duplicate-bidder check, and the
  "first maximal element" selection that Python's `max(..., key=...)` performs.
 */
module Bids {
  import opened Wrappers

  /** Every error a placement can raise, in the order the guards run. */
  datatype BidError =
    | NotFound       // no item with the requested id (HTTP 404)
    | BadSchedule    // the item's start or end of bidding is unset (HTTP 400)
    | OutsideWindow  // now is not inside [start, end) (HTTP 400)
    | AlreadyBid     // the actor already holds a row on this item (HTTP 409)
    | BelowMinimum   // a first bid under the minimum start price (HTTP 400)
    | MustExceed     // the bid does not beat a leader that will not defend (HTTP 400)

  /**
    One persisted bid row: its holder, the committed amount, and the optional
    proxy (a budget the system may raise to, and the step it raises by).
   */
  datatype Bid = Bid(userId: int, amount: real, maxBudget: Option<real>, bidIncrement: Option<real>)

  /** The key the leader is selected by. */
  function Amount(b: Bid): real {
    b.amount
  }

  /**
    The most a row can be raised to on its holder's behalf: its budget when
    one is set, else its own amount. Nothing keeps a budget above the amount,
    so a cap below the amount can only come from such a budget.
   */
  function MaxCap(b: Bid): (cap: real)
    ensures b.maxBudget.Some? ==> cap == b.maxBudget.value
    ensures b.maxBudget.None? ==> cap == b.amount
    ensures cap != b.amount ==> b.maxBudget == Some(cap)
  {
    if b.maxBudget.Some? then b.maxBudget.value else b.amount
  }

  /** The raise step of a row; an unset increment counts as zero. */
  function Step(b: Bid): real {
    b.bidIncrement.GetOr(0.0)
  }

  function Min(a: real, b: real): real {
    if a <= b then a else b
  }

  function Max(a: real, b: real): real {
    if a >= b then a else b
  }

  /** The holder and the proxy of a row, everything a raise must leave alone. */
  predicate SameHolder(a: Bid, b: Bid) {
    a.userId == b.userId && a.maxBudget == b.maxBudget && a.bidIncrement == b.bidIncrement
  }

  /** No user holds two rows. */
  ghost predicate UniqueUsers(bids: seq<Bid>) {
    forall i, j :: 0 <= i < j < |bids| ==> bids[i].userId != bids[j].userId
  }

  /** Some row of `bids` belongs to `userId`. */
  ghost predicate HoldsRow(bids: seq<Bid>, userId: int) {
    exists i :: 0 <= i < |bids| && bids[i].userId == userId
  }

  /**
    Index `k` is where a left-to-right scan settles: its key is maximal and
    every earlier element's key is strictly smaller (ties go to the first).
   */
  ghost predicate IsFirstMax(s: seq<Bid>, key: Bid -> real, k: int) {
    && 0 <= k < |s|
    && (forall j :: 0 <= j < |s| ==> key(s[j]) <= key(s[k]))
    && (forall j :: 0 <= j < k ==> key(s[j]) < key(s[k]))
  }

  /** At most one index is the first maximum, so the selection is determined. */
  lemma FirstMaxUnique(s: seq<Bid>, key: Bid -> real, k1: int, k2: int)
    requires IsFirstMax(s, key, k1) && IsFirstMax(s, key, k2)
    ensures k1 == k2
  {
    // each is maximal, so neither can lie strictly before the other
    assert key(s[k1]) <= key(s[k2]) && key(s[k2]) <= key(s[k1]);
  }

  /** Python's `max(s, key=key)` on a non-empty list, as the position chosen. */
  function FirstArgMax(s: seq<Bid>, key: Bid -> real): (k: nat)
    requires |s| > 0
    ensures IsFirstMax(s, key, k)
  {
    ScanMax(s, key, 0, 1)
  }

  /** Prepending an element whose key is not below the tail's maximum puts the first maximum at the front. */
  lemma FirstMaxOfConsHead(b: Bid, rest: seq<Bid>, key: Bid -> real)
    requires |rest| == 0 || key(b) >= key(rest[FirstArgMax(rest, key)])
    ensures FirstArgMax([b] + rest, key) == 0
  {
  }

  /** Prepending an element whose key is below the tail's maximum shifts the first maximum by one. */
  lemma FirstMaxOfConsTail(b: Bid, rest: seq<Bid>, key: Bid -> real)
    requires |rest| > 0 && key(b) < key(rest[FirstArgMax(rest, key)])
    ensures FirstArgMax([b] + rest, key) == FirstArgMax(rest, key) + 1
  {
    var s := [b] + rest;
    var m := FirstArgMax(rest, key);
    assert IsFirstMax(s, key, m + 1) by {
      forall j | 0 <= j < |s|
        ensures key(s[j]) <= key(s[m + 1])
      {
        if j > 0 {
          assert s[j] == rest[j - 1];
        }
      }
      forall j | 0 <= j < m + 1
        ensures key(s[j]) < key(s[m + 1])
      {
        if j > 0 {
          assert s[j] == rest[j - 1];
        }
      }
    }
    FirstMaxUnique(s, key, m + 1, FirstArgMax(s, key));
  }

  /**
    The scan behind `max`: `best` is the first maximum of `s[..i]`, and it is
    replaced only by a strictly greater key.
   */
  function ScanMax(s: seq<Bid>, key: Bid -> real, best: nat, i: nat): (k: nat)
    requires best < i <= |s|
    requires forall j :: 0 <= j < i ==> key(s[j]) <= key(s[best])
    requires forall j :: 0 <= j < best ==> key(s[j]) < key(s[best])
    ensures IsFirstMax(s, key, k)
    decreases |s| - i
  {
    if i == |s| then best
    else if key(s[i]) > key(s[best]) then ScanMax(s, key, i, i + 1)
    else ScanMax(s, key, best, i + 1)
  }

  /**
    The duplicate-bidder guard: fails with AlreadyBid exactly when some row
    already belongs to `userId`.
   */
  function CheckBidPlaced(bids: seq<Bid>, userId: int): (r: Outcome<BidError>)
    ensures r == Fail(AlreadyBid) <==> HoldsRow(bids, userId)
    ensures r == Pass <==> forall i :: 0 <= i < |bids| ==> bids[i].userId != userId
  {
    if |bids| == 0 then Pass
    else if bids[0].userId == userId then Fail(AlreadyBid)
    else
      var rest := CheckBidPlaced(bids[1..], userId);
      assert forall i :: 1 <= i < |bids| ==> bids[i] == bids[1..][i - 1];
      rest
  }
}
