/**
  The proxy-bid resolver (`compute_winner` in app/auctions/tx_bid.py): given
  the rows on an item and an incoming bid, decide who leads and at what price,
  or reject the bid.
 */
module Resolver {
  import opened Wrappers
  import opened Bids

  /** The resolver's answer: the winner, the winning price, and the actor's own proxy fields. */
  datatype Decision = Decision(winnerUserId: int, winnerAmount: real, maxBudget: Option<real>, bidIncrement: Option<real>)

  /** A row that can fight back for its holder: another user's row with a budget and a positive step. */
  predicate IsContender(b: Bid, actor: int) {
    && b.userId != actor
    && b.maxBudget.Some?
    && b.bidIncrement.Some?
    && b.bidIncrement.value > 0.0
  }

  /** Row `k` is the current leader: the first row carrying the highest amount. */
  ghost predicate IsLeader(bids: seq<Bid>, k: int) {
    IsFirstMax(bids, Amount, k)
  }

  /** Row `k` is the first contender (in row order) whose cap is the largest among contenders. */
  ghost predicate IsBestContender(bids: seq<Bid>, actor: int, k: int) {
    && 0 <= k < |bids|
    && IsContender(bids[k], actor)
    && (forall j :: 0 <= j < |bids| && IsContender(bids[j], actor) ==> MaxCap(bids[j]) <= MaxCap(bids[k]))
    && (forall j :: 0 <= j < k && IsContender(bids[j], actor) ==> MaxCap(bids[j]) < MaxCap(bids[k]))
  }

  /** No row can fight back for anyone but the actor. */
  ghost predicate NoContender(bids: seq<Bid>, actor: int) {
    forall j :: 0 <= j < |bids| ==> !IsContender(bids[j], actor)
  }

  /**
    Decision `d` is an auto-raise by row `b` against a bid of `amount`: `b`'s
    holder wins, at least at the challenged amount, strictly above `b`'s old
    amount, within `b`'s cap, and by at most one step.
   */
  predicate IsProxyRaise(b: Bid, amount: real, d: Decision) {
    && d.winnerUserId == b.userId
    && Step(b) > 0.0
    && amount <= d.winnerAmount <= MaxCap(b)
    && b.amount < d.winnerAmount <= amount + Step(b)
  }

  /** The list comprehension that collects the contenders, in row order. */
  function Contenders(bids: seq<Bid>, actor: int): (cs: seq<Bid>)
    ensures |cs| <= |bids|
    ensures forall b :: b in cs ==> b in bids && IsContender(b, actor)
    ensures forall i :: 0 <= i < |bids| && IsContender(bids[i], actor) ==> bids[i] in cs
    ensures |cs| == 0 <==> NoContender(bids, actor)
  {
    if |bids| == 0 then []
    else
      var rest := Contenders(bids[1..], actor);
      assert forall i :: 1 <= i < |bids| ==> bids[i] == bids[1..][i - 1];
      (if IsContender(bids[0], actor) then [bids[0]] else []) + rest
  }

  /**
    The best contender Python's `max(contenders, key=max_cap)` picks is the
    first row of the whole list, among contenders, that reaches the largest cap.
   */
  lemma {:induction false} BestOfContenders(bids: seq<Bid>, actor: int) returns (c: nat)
    requires |Contenders(bids, actor)| > 0
    ensures IsBestContender(bids, actor, c)
    ensures bids[c] == Contenders(bids, actor)[FirstArgMax(Contenders(bids, actor), MaxCap)]
  {
    var tail := bids[1..];
    var rest := Contenders(tail, actor);
    assert bids == [bids[0]] + tail;
    if !IsContender(bids[0], actor) {
      assert Contenders(bids, actor) == rest;
      var c' := BestOfContenders(tail, actor);
      ShiftBestContender(bids, actor, c');
      c := c' + 1;
    } else if |rest| == 0 {
      assert Contenders(bids, actor) == [bids[0]] + rest;
      FirstMaxOfConsHead(bids[0], rest, MaxCap);
      HeadBestContender(bids, actor);
      c := 0;
    } else {
      assert Contenders(bids, actor) == [bids[0]] + rest;
      var c' := BestOfContenders(tail, actor);
      if MaxCap(bids[0]) >= MaxCap(rest[FirstArgMax(rest, MaxCap)]) {
        FirstMaxOfConsHead(bids[0], rest, MaxCap);
        HeadBestContender(bids, actor);
        c := 0;
      } else {
        FirstMaxOfConsTail(bids[0], rest, MaxCap);
        ShiftBestContender(bids, actor, c');
        c := c' + 1;
      }
    }
  }

  /** The best contender of the tail stays best once a head that does not beat it is put back. */
  lemma ShiftBestContender(bids: seq<Bid>, actor: int, c': int)
    requires |bids| > 0 && IsBestContender(bids[1..], actor, c')
    requires IsContender(bids[0], actor) ==> MaxCap(bids[0]) < MaxCap(bids[c' + 1])
    ensures IsBestContender(bids, actor, c' + 1)
  {
  }

  /** A contender at the head whose cap reaches every other contender's is the best contender. */
  lemma HeadBestContender(bids: seq<Bid>, actor: int)
    requires |bids| > 0 && IsContender(bids[0], actor)
    requires |Contenders(bids[1..], actor)| == 0
             || MaxCap(bids[0]) >= MaxCap(Contenders(bids[1..], actor)[FirstArgMax(Contenders(bids[1..], actor), MaxCap)])
    ensures IsBestContender(bids, actor, 0)
  {
  }

  /** Two best contenders are the same row. */
  lemma BestContenderUnique(bids: seq<Bid>, actor: int, c1: int, c2: int)
    requires IsBestContender(bids, actor, c1) && IsBestContender(bids, actor, c2)
    ensures c1 == c2
  {
  }

  /**
    `compute_winner`. The actor's proxy fields come back unchanged, the only
    rejection is MustExceed, an empty item goes to the actor at their amount,
    any winner other than the actor is a row auto-raising within its cap, and
    a successful decision always strictly beats every existing row.
   */
  function ComputeWinner(bids: seq<Bid>, userId: int, amount: real, maxBudget: Option<real>, bidIncrement: Option<real>)
    : (r: Result<Decision, BidError>)
    ensures r.Success? ==> r.value.maxBudget == maxBudget && r.value.bidIncrement == bidIncrement
    ensures r.Failure? ==> r.error == MustExceed && |bids| > 0
    ensures |bids| == 0 ==> r == Success(Decision(userId, amount, maxBudget, bidIncrement))
    ensures r.Success? && r.value.winnerUserId != userId ==>
              exists k :: 0 <= k < |bids| && IsProxyRaise(bids[k], amount, r.value)
    ensures r.Success? ==> forall j :: 0 <= j < |bids| ==> bids[j].amount < r.value.winnerAmount
  {
    var actorWins := Decision(userId, amount, maxBudget, bidIncrement);
    if |bids| == 0 then Success(actorWins)
    else
    var highest := FirstArgMax(bids, Amount);
    if amount <= bids[highest].amount then
      var defender := bids[highest];
      var defenderCap := MaxCap(defender);
      var step := Step(defender);
      if step > 0.0 && amount >= defender.amount && amount < defenderCap then
        Success(Decision(defender.userId, Min(defenderCap, amount + step), maxBudget, bidIncrement))
      else
        Failure(MustExceed)
    else
      var contenders := Contenders(bids, userId);
      if |contenders| > 0 then
        var best := contenders[FirstArgMax(contenders, MaxCap)];
        assert best in contenders;
        if amount <= MaxCap(best) then
          Success(Decision(best.userId, Min(MaxCap(best), amount + best.bidIncrement.value), maxBudget, bidIncrement))
        else
          Success(actorWins)
      else
        Success(actorWins)
  }

  /** A bid strictly below the leader's amount is always rejected. */
  lemma BelowLeaderRejected(bids: seq<Bid>, userId: int, amount: real, maxBudget: Option<real>, bidIncrement: Option<real>, k: int)
    requires IsLeader(bids, k) && amount < bids[k].amount
    ensures ComputeWinner(bids, userId, amount, maxBudget, bidIncrement) == Failure(MustExceed)
  {
  }

  /**
    A bid equal to the leader's amount succeeds exactly when the leader has a
    positive step and its cap lies above the amount; the leader then keeps the
    lead at one step up, clipped to its cap.
   */
  lemma TieWithLeader(bids: seq<Bid>, userId: int, amount: real, maxBudget: Option<real>, bidIncrement: Option<real>, k: int)
    requires IsLeader(bids, k) && amount == bids[k].amount
    ensures var r := ComputeWinner(bids, userId, amount, maxBudget, bidIncrement);
            && (r.Success? <==> Step(bids[k]) > 0.0 && amount < MaxCap(bids[k]))
            && (r.Success? ==> r.value.winnerUserId == bids[k].userId
                               && r.value.winnerAmount == Min(MaxCap(bids[k]), amount + Step(bids[k])))
  {
  }

  /** A leader without a positive increment is never displaced by an equal bid: that bid is rejected. */
  lemma TieAgainstNonDefenderRejected(bids: seq<Bid>, userId: int, amount: real, maxBudget: Option<real>, bidIncrement: Option<real>, k: int)
    requires IsLeader(bids, k) && amount == bids[k].amount
    requires bids[k].bidIncrement.None? || bids[k].bidIncrement.value <= 0.0
    ensures ComputeWinner(bids, userId, amount, maxBudget, bidIncrement) == Failure(MustExceed)
  {
  }

  /** Above the leader with no contender around, the actor wins at their own amount. */
  lemma AboveLeaderUncontested(bids: seq<Bid>, userId: int, amount: real, maxBudget: Option<real>, bidIncrement: Option<real>, k: int)
    requires IsLeader(bids, k) && amount > bids[k].amount
    requires NoContender(bids, userId)
    ensures ComputeWinner(bids, userId, amount, maxBudget, bidIncrement)
            == Success(Decision(userId, amount, maxBudget, bidIncrement))
  {
  }

  /** The leader and the best contender are the rows the resolver's two `max` calls pick. */
  lemma ResolverPicks(bids: seq<Bid>, userId: int, k: int, c: int)
    requires IsLeader(bids, k) && IsBestContender(bids, userId, c)
    ensures FirstArgMax(bids, Amount) == k
    ensures var cs := Contenders(bids, userId);
            |cs| > 0 && cs[FirstArgMax(cs, MaxCap)] == bids[c]
  {
    FirstMaxUnique(bids, Amount, k, FirstArgMax(bids, Amount));
    assert bids[c] in Contenders(bids, userId);
    var c' := BestOfContenders(bids, userId);
    BestContenderUnique(bids, userId, c, c');
  }

  /**
    Above the leader, the best contender takes the lead when its cap reaches
    the amount, at one of its steps above the amount clipped to its cap.
   */
  lemma ContenderAnswers(bids: seq<Bid>, userId: int, amount: real, maxBudget: Option<real>, bidIncrement: Option<real>, k: int, c: int)
    requires IsLeader(bids, k) && amount > bids[k].amount
    requires IsBestContender(bids, userId, c) && amount <= MaxCap(bids[c])
    ensures ComputeWinner(bids, userId, amount, maxBudget, bidIncrement)
            == Success(Decision(bids[c].userId, Min(MaxCap(bids[c]), amount + Step(bids[c])), maxBudget, bidIncrement))
  {
    ResolverPicks(bids, userId, k, c);
    var cs := Contenders(bids, userId);
    var best := cs[FirstArgMax(cs, MaxCap)];
    assert best == bids[c] && Step(best) == best.bidIncrement.value;
    assert !(amount <= bids[FirstArgMax(bids, Amount)].amount);
  }

  /** Above the leader and above the best contender's cap, the actor wins at their own amount. */
  lemma ContenderOutbid(bids: seq<Bid>, userId: int, amount: real, maxBudget: Option<real>, bidIncrement: Option<real>, k: int, c: int)
    requires IsLeader(bids, k) && amount > bids[k].amount
    requires IsBestContender(bids, userId, c) && amount > MaxCap(bids[c])
    ensures ComputeWinner(bids, userId, amount, maxBudget, bidIncrement)
            == Success(Decision(userId, amount, maxBudget, bidIncrement))
  {
    ResolverPicks(bids, userId, k, c);
  }

  /**
    The actor's own budget and increment never fight for the actor: who wins
    and at what price are the same whatever proxy the actor submits.
   */
  lemma ActorProxyIgnored(bids: seq<Bid>, userId: int, amount: real,
                          maxBudget1: Option<real>, bidIncrement1: Option<real>,
                          maxBudget2: Option<real>, bidIncrement2: Option<real>)
    ensures var r1 := ComputeWinner(bids, userId, amount, maxBudget1, bidIncrement1);
            var r2 := ComputeWinner(bids, userId, amount, maxBudget2, bidIncrement2);
            && r1.Success? == r2.Success?
            && (r1.Success? ==> r1.value.winnerUserId == r2.value.winnerUserId
                                && r1.value.winnerAmount == r2.value.winnerAmount)
  {
  }
}
