// The auction for the landlord: one answer after another, as a step on the
// positions and answers of the three seats.

module Auction {

  const SEATS := 3

  /** What an answer leads to. */
  datatype Outcome =
    | Asking              // the seat in turn is asked next
    | Landlord(seat: int) // the auction is over
    | Redeal              // all passed, the cards are dealt anew
    | Stalled             // nothing happens any more

  /** `turn` and `first` are seats or -1; `answers` are 1 for a bid, -1 for a pass, 0 for none yet. */
  datatype Bidding = Bidding(turn: int, first: int, answers: seq<int>, multiple: int, top: int, outcome: Outcome)

  predicate IsSeat(p: int)
  {
    0 <= p < SEATS
  }

  predicate Proper(s: Bidding)
  {
    IsSeat(s.turn) && IsSeat(s.first) && |s.answers| == SEATS
  }

  function Next(p: int): int
    requires IsSeat(p)
    ensures IsSeat(Next(p))
  {
    (p + 1) % SEATS
  }

  /**
   * The seat in turn answers. `declarer` is the seat that first showed its cards, or -1.
   *
   * The first bid moves the start to the next seat and looks for a seat to ask. The answer looked at
   * is that of `looked`, which does not move with the turn.
   */
  function Answer(s: Bidding, isBid: bool, declarer: int): Bidding
    requires Proper(s)
  {
    var answered := s.(answers := s.answers[s.turn := if isBid then 1 else -1]);
    if s.multiple == -1 then
      if isBid then
        var start := Next(s.turn);
        SeekFirst(answered.(multiple := 0, top := s.turn, turn := start, first := start), start, 0)
      else if Next(s.turn) == s.first then
        answered.(outcome := if declarer == -1 then Redeal else Landlord(declarer))
      else
        answered.(turn := Next(s.turn))
    else
      SeekNext(if isBid then answered.(multiple := s.multiple + 1, top := s.turn) else answered, 0)
  }

  /** The loop after the first bid: two seats may be passed over, then the bidder has it. */
  function SeekFirst(s: Bidding, looked: int, count: nat): Bidding
    requires Proper(s) && IsSeat(looked) && count <= 2
    decreases 2 - count
  {
    if count < 2 then
      if s.answers[looked] == -1 then SeekFirst(s.(turn := Next(s.turn)), looked, count + 1)
      else s.(outcome := Asking)
    else
      s.(outcome := Landlord(s.top))
  }

  /** The loop after a later answer. */
  function SeekNext(s: Bidding, count: nat): Bidding
    requires Proper(s) && count <= 2
    decreases 2 - count
  {
    if count == 2 then s.(outcome := Stalled)
    else if Next(s.turn) == s.first then s.(outcome := Landlord(s.top))
    else
      var t := s.(turn := Next(s.turn));
      if t.answers[t.turn] == -1 then SeekNext(t, count + 1)
      else if t.turn == t.top then t.(outcome := Landlord(t.top))
      else t.(outcome := Asking)
  }

  /** The first loop with an index that follows the turn. */
  function SeekFollowing(s: Bidding, count: nat): Bidding
    requires Proper(s) && count <= 2
    decreases 2 - count
  {
    if count < 2 then
      if s.answers[s.turn] == -1 then SeekFollowing(s.(turn := Next(s.turn)), count + 1)
      else s.(outcome := Asking)
    else
      s.(outcome := Landlord(s.top))
  }

  /** The auction as it opens: the seat `p` is asked first. */
  function Opening(p: int): (s: Bidding)
    requires IsSeat(p)
    ensures Proper(s)
  {
    Bidding(p, p, [0, 0, 0], -1, -1, Asking)
  }

  /** An answer is taken: until there is a landlord, also while the cards are about to be dealt anew. */
  predicate Takes(s: Bidding)
  {
    s.outcome == Asking || s.outcome == Redeal
  }

  /** The state after one more answer; once there is a landlord, answers change nothing. */
  function Answered(s: Bidding, isBid: bool, declarer: int): (r: Bidding)
    requires Proper(s)
    ensures Proper(r)
  {
    if Takes(s) then AnswerProper(s, isBid, declarer); Answer(s.(outcome := Asking), isBid, declarer) else s
  }

  /** The state after a list of answers. */
  function Run(s: Bidding, declarer: int, given: seq<bool>): (r: Bidding)
    requires Proper(s)
    ensures Proper(r)
    decreases |given|
  {
    if given == [] then s
    else
      var last := |given| - 1;
      Answered(Run(s, declarer, given[..last]), given[last], declarer)
  }

  lemma AnswerProper(s: Bidding, isBid: bool, declarer: int)
    requires Proper(s)
    ensures Proper(Answer(s.(outcome := Asking), isBid, declarer))
  {
  }

  /** The number of bids among the answers. */
  function Bids(given: seq<bool>): nat
  {
    if given == [] then 0 else Bids(given[..|given| - 1]) + if given[|given| - 1] then 1 else 0
  }

  /** Everyone asked so far has passed: `n` seats from `p` on. */
  ghost predicate AllPassed(s: Bidding, p: int, n: nat)
  {
    && Proper(s) && IsSeat(p) && n < SEATS
    && s.multiple == -1 && s.top == -1 && s.first == p && s.turn == (p + n) % SEATS
    && s.answers[p] == (if n > 0 then -1 else 0)
    && s.answers[Next(p)] == (if n > 1 then -1 else 0)
    && s.answers[Next(Next(p))] == 0
  }

  /** Someone has bid: the seat before `first`, as the first of all. */
  ghost predicate SomeBid(s: Bidding)
  {
    && Proper(s)
    && s.multiple >= 0 && IsSeat(s.top) && s.answers[s.top] == 1 && s.turn != s.top && s.answers[s.turn] != -1
    && s.answers[Next(Next(s.first))] == 1
    && (s.turn == s.first ==> s.top == Next(Next(s.first)))
    && (s.turn != Next(Next(s.first)) ==> s.answers[Next(s.first)] in {0, -1} && s.answers[s.turn] == 0)
    && (s.turn == Next(s.first) && s.answers[s.first] != 1 ==> s.top == Next(Next(s.first)))
    && s.answers[Next(s.first)] in {-1, 0, 1} && s.answers[s.first] in {-1, 0, 1}
  }

  /** How many answers were given, when a bid has been made: whoever is asked, the seats before it have answered. */
  ghost function Given(s: Bidding): nat
    requires Proper(s)
  {
    if s.turn == s.first then if s.answers[Next(s.first)] == -1 then 2 else 1
    else if s.turn == Next(s.first) then 2
    else 3
  }

  /** The state of an auction that goes on after the answers `n`, of which `bids` were bids. */
  ghost predicate GoesOn(s: Bidding, p: int, n: nat, bids: nat)
  {
    && s.outcome == Asking
    && if bids == 0 then AllPassed(s, p, n)
       else SomeBid(s) && s.multiple == bids - 1 && n == Given(s) && (bids == 1 <==> s.top == Next(Next(s.first)))
  }

  /** All three have passed, `n` answers ago at least: the last of them may answer until the new deal. */
  ghost predicate Redealing(s: Bidding, p: int, declarer: int, n: nat, bids: nat)
  {
    && Proper(s) && IsSeat(p)
    && s.outcome == Redeal && bids == 0 && n >= 3 && declarer == -1
    && s.multiple == -1 && s.top == -1 && s.first == p && s.turn == Next(Next(p)) && s.answers == [-1, -1, -1]
  }

  /**
   * There is a landlord: the last to have bid, or the first to have shown its cards. That takes three answers,
   * and a fourth if there was more than one bid, unless the only bid came late, while the cards were about to be
   * dealt anew.
   */
  ghost predicate Won(s: Bidding, declarer: int, n: nat, bids: nat)
  {
    && s.multiple == bids - 1
    && if bids == 0 then n == 3 && declarer != -1 && s.outcome == Landlord(declarer)
       else IsSeat(s.top) && s.outcome == Landlord(s.top) && (n == 4 || (n == 3 && bids == 1) || (n > 4 && bids == 1))
  }

  /** What an auction has come to after `n` answers, of which `bids` were bids. */
  ghost predicate StandsAfter(s: Bidding, p: int, declarer: int, n: nat, bids: nat)
  {
    GoesOn(s, p, n, bids) || Redealing(s, p, declarer, n, bids) || Won(s, declarer, n, bids)
  }

  lemma SeekFirstIs(s: Bidding, looked: int)
    requires Proper(s) && IsSeat(looked)
    ensures SeekFirst(s, looked, 0) ==
      if s.answers[looked] != -1 then s.(outcome := Asking)
      else s.(turn := Next(Next(s.turn)), outcome := Landlord(s.top))
  {
    var t := s.(turn := Next(s.turn));
    assert s.answers[looked] == -1 ==> SeekFirst(s, looked, 0) == SeekFirst(t, looked, 1);
    assert s.answers[looked] == -1 ==> SeekFirst(t, looked, 1) == SeekFirst(t.(turn := Next(t.turn)), looked, 2);
  }

  lemma SeekNextIs(s: Bidding)
    requires Proper(s)
    ensures
      var t := s.(turn := Next(s.turn));
      var u := t.(turn := Next(t.turn));
      SeekNext(s, 0) ==
      if t.turn == s.first then s.(outcome := Landlord(s.top))
      else if s.answers[t.turn] != -1 then t.(outcome := if t.turn == s.top then Landlord(s.top) else Asking)
      else if u.turn == s.first then t.(outcome := Landlord(s.top))
      else if s.answers[u.turn] != -1 then u.(outcome := if u.turn == s.top then Landlord(s.top) else Asking)
      else u.(outcome := Stalled)
  {
    var t := s.(turn := Next(s.turn));
    var u := t.(turn := Next(t.turn));
    assert t.turn != s.first && s.answers[t.turn] == -1 ==> SeekNext(s, 0) == SeekNext(t, 1);
    assert u.turn != s.first && s.answers[u.turn] == -1 ==> SeekNext(t, 1) == SeekNext(u, 2);
  }

  /** How far the turn is from the first seat. */
  function Distance(s: Bidding): nat
    requires Proper(s)
  {
    (s.turn - s.first + SEATS) % SEATS
  }

  lemma Distances(p: int)
    requires IsSeat(p)
    ensures (Next(p) - p + SEATS) % SEATS == 1 && (Next(Next(p)) - p + SEATS) % SEATS == 2
  {
  }

  /** The first seat is in turn, and both others have passed. */
  predicate Stuck(s: Bidding)
    requires Proper(s)
  {
    s.turn == s.first && s.answers[Next(s.first)] == -1 && s.answers[Next(Next(s.first))] == -1
  }

  /** From any state with a bid made, an answer stalls the auction only if it is stuck; else the turn goes on. */
  lemma LaterAnswer(s: Bidding, isBid: bool, declarer: int)
    requires Proper(s) && s.multiple != -1
    ensures var t := Answer(s, isBid, declarer);
      && t.first == s.first && t.answers == s.answers[s.turn := if isBid then 1 else -1]
      && (t.outcome == Stalled <==> Stuck(s)) && t.outcome != Redeal
      && (t.outcome == Asking ==> Distance(t) > Distance(s))
      && (Distance(s) == 2 ==> t.outcome.Landlord?)
  {
    hide SeekFirst, SeekNext, Next;
    Circle(s.first, s.turn);
    Distances(s.first);
    var answered := s.(answers := s.answers[s.turn := if isBid then 1 else -1]);
    SeekNextIs(if isBid then answered.(multiple := s.multiple + 1, top := s.turn) else answered);
  }

  /** The first bid: its seat becomes the last to be asked, the next seat the first. */
  lemma FirstBid(s: Bidding, p: int, n: nat, declarer: int)
    requires IsSeat(p) && s.outcome == Asking && AllPassed(s, p, n)
    ensures var t := Answer(s, true, declarer);
            GoesOn(t, p, n + 1, 1) || (Won(t, declarer, n + 1, 1) && n + 1 <= 4)
    ensures Answer(s, true, declarer).top == s.turn
  {
    hide SeekFirst;
    var start := Next(s.turn);
    SeekFirstIs(AfterFirstBid(s), start);
  }

  lemma PassBeforeBid(s: Bidding, p: int, n: nat, declarer: int)
    requires IsSeat(p) && s.outcome == Asking && AllPassed(s, p, n)
    ensures var t := Answer(s, false, declarer);
            GoesOn(t, p, n + 1, 0)
            || (n + 1 == 3 && (Redealing(t, p, declarer, n + 1, 0) || Won(t, declarer, n + 1, 0)))
    ensures Answer(s, false, declarer).top == s.top
  {
    hide SeekFirst, SeekNext;
  }

  /** The three seats, from any of them on. */
  lemma Circle(p: int, q: int)
    requires IsSeat(p) && IsSeat(q)
    ensures p != Next(p) && p != Next(Next(p)) && Next(p) != Next(Next(p)) && Next(Next(Next(p))) == p
    ensures q == p || q == Next(p) || q == Next(Next(p))
  {
  }

  lemma LaterBid(s: Bidding, p: int, n: nat, bids: nat, declarer: int)
    requires IsSeat(p) && GoesOn(s, p, n, bids) && bids > 0
    ensures var t := Answer(s, true, declarer);
            GoesOn(t, p, n + 1, bids + 1) || (Won(t, declarer, n + 1, bids + 1) && n + 1 <= 4)
    ensures Answer(s, true, declarer).top == s.turn
  {
    hide SeekFirst, SeekNext, AllPassed, Next;
    Circle(s.first, s.turn);
    SeekNextIs(s.(answers := s.answers[s.turn := 1], multiple := s.multiple + 1, top := s.turn));
  }

  lemma LaterPass(s: Bidding, p: int, n: nat, bids: nat, declarer: int)
    requires IsSeat(p) && GoesOn(s, p, n, bids) && bids > 0
    ensures var t := Answer(s, false, declarer);
            GoesOn(t, p, n + 1, bids) || (Won(t, declarer, n + 1, bids) && n + 1 <= 4)
    ensures Answer(s, false, declarer).top == s.top
  {
    hide SeekFirst, SeekNext, AllPassed, Next;
    Circle(s.first, s.turn);
    SeekNextIs(s.(answers := s.answers[s.turn := -1]));
  }

  /** An answer that was asked for leads on to a seat that may be asked, or ends the auction in time. */
  lemma AskedLeadsOn(s: Bidding, p: int, n: nat, bids: nat, isBid: bool, declarer: int)
    requires IsSeat(p) && GoesOn(s, p, n, bids)
    ensures var t, more := Answer(s, isBid, declarer), bids + if isBid then 1 else 0;
            StandsAfter(t, p, declarer, n + 1, more)
            && (t.outcome == Redeal ==> n + 1 == 3) && (t.outcome.Landlord? ==> n + 1 <= 4)
    ensures Answer(s, isBid, declarer).top == if isBid then s.turn else s.top
  {
    if bids > 0 {
      if isBid { LaterBid(s, p, n, bids, declarer); } else { LaterPass(s, p, n, bids, declarer); }
    } else if isBid {
      FirstBid(s, p, n, declarer);
    } else {
      PassBeforeBid(s, p, n, declarer);
    }
  }

  /** While a new deal is due, a pass asks for it once more, and a bid makes its giver the landlord. */
  lemma LateLeadsOn(s: Bidding, p: int, n: nat, isBid: bool, declarer: int)
    requires Redealing(s, p, declarer, n, 0)
    ensures var t := Answer(s.(outcome := Asking), isBid, declarer);
            if isBid then Won(t, declarer, n + 1, 1) && t.top == s.turn else t == s
  {
    hide SeekFirst, SeekNext;
    if isBid {
      SeekFirstIs(AfterFirstBid(s.(outcome := Asking)), Next(s.turn));
    }
  }

  /** An answer that is taken leads on to a seat that may be asked, to a new deal, or to a landlord. */
  lemma AnswerLeadsOn(s: Bidding, p: int, n: nat, bids: nat, isBid: bool, declarer: int)
    requires IsSeat(p) && Proper(s) && Takes(s) && StandsAfter(s, p, declarer, n, bids)
    ensures var t, more := Answered(s, isBid, declarer), bids + if isBid then 1 else 0;
            && StandsAfter(t, p, declarer, n + 1, more)
            && t.top == (if isBid then s.turn else s.top)
            && (s.outcome == Asking && t.outcome == Redeal ==> n + 1 == 3)
            && (s.outcome == Asking && t.outcome.Landlord? ==> n + 1 <= 4)
            && (s.outcome == Redeal && t.outcome.Landlord? ==> isBid && bids == 0)
  {
    hide Answer;
    if s.outcome == Asking {
      assert s.(outcome := Asking) == s;
      AskedLeadsOn(s, p, n, bids, isBid, declarer);
    } else {
      LateLeadsOn(s, p, n, isBid, declarer);
    }
  }

  /** The seat of the last bid that counted, or -1. */
  ghost function LastBidder(p: int, declarer: int, given: seq<bool>): int
    requires IsSeat(p)
  {
    if given == [] then -1
    else
      var last := |given| - 1;
      var before := Run(Opening(p), declarer, given[..last]);
      if Takes(before) && given[last] then before.turn else LastBidder(p, declarer, given[..last])
  }

  lemma OpeningGoesOn(p: int)
    requires IsSeat(p)
    ensures GoesOn(Opening(p), p, 0, 0)
  {
  }

  /**
   * Whatever is answered, after `n` answers the auction goes on with a seat that has neither passed nor
   * bid last, or a new deal is due since all three have passed, or there is a landlord.
   */
  lemma {:induction false} AuctionRun(p: int, declarer: int, given: seq<bool>) returns (n: nat)
    requires IsSeat(p)
    ensures n <= |given|
    ensures var s := Run(Opening(p), declarer, given);
            && s.top == LastBidder(p, declarer, given)
            && StandsAfter(s, p, declarer, n, Bids(given[..n]))
            && (Takes(s) ==> n == |given|)
            && (s.outcome.Landlord? && n > 4 ==> given[n - 1] && Bids(given[..n]) == 1)
  {
    hide Answer, GoesOn, Won, Redealing;
    if given == [] {
      n := 0;
      OpeningGoesOn(p);
    } else {
      var last := |given| - 1;
      var init := given[..last];
      n := AuctionRun(p, declarer, init);
      var before := Run(Opening(p), declarer, init);
      if Takes(before) {
        assert init[..last] == init;
        AnswerLeadsOn(before, p, last, Bids(init), given[last], declarer);
        n := |given|;
        assert given[..n] == given;
      } else {
        assert given[..n] == init[..n];
      }
    }
  }

  /** When every answer was taken, all of them count. */
  lemma AnsweredRun(p: int, declarer: int, given: seq<bool>)
    requires IsSeat(p)
    requires given == [] || Takes(Run(Opening(p), declarer, given[..|given| - 1]))
    ensures var s := Run(Opening(p), declarer, given);
            && s.top == LastBidder(p, declarer, given)
            && StandsAfter(s, p, declarer, |given|, Bids(given))
  {
    hide Answer, GoesOn, Won, Redealing;
    var n := AuctionRun(p, declarer, given);
    if given == [] {
      OpeningGoesOn(p);
    } else {
      var last := |given| - 1;
      var init := given[..last];
      var k := AuctionRun(p, declarer, init);
      assert init[..k] == init;
      AnswerLeadsOn(Run(Opening(p), declarer, init), p, last, Bids(init), given[last], declarer);
    }
  }

  /**
   * It asks for three answers, and for a fourth exactly if there was more than one bid; it never stalls, and deals
   * anew exactly when none of three or more was a bid.
   */
  lemma AuctionEnds(p: int, declarer: int, given: seq<bool>)
    requires IsSeat(p)
    ensures var s := Run(Opening(p), declarer, given);
            && s.outcome != Stalled
            && (s.outcome == Asking <==> |given| < 3 || (|given| == 3 && Bids(given) >= 2))
            && s.outcome in {Landlord(s.top), Landlord(declarer), Redeal, Asking}
            && (s.outcome == Redeal <==> |given| >= 3 && Bids(given) == 0 && declarer == -1)
  {
    hide Answer, Run, LastBidder;
    var n := AuctionRun(p, declarer, given);
    assert given[..|given|] == given;
    BidsGrow(given, n);
  }

  lemma {:induction false} BidsGrow(given: seq<bool>, n: nat)
    requires n <= |given|
    ensures Bids(given[..n]) <= Bids(given)
  {
    if n < |given| {
      assert given[..|given| - 1][..n] == given[..n];
      BidsGrow(given[..|given| - 1], n);
    } else {
      assert given[..n] == given;
    }
  }

  /** The state after a first bid, when the loop starts. */
  function AfterFirstBid(s: Bidding): Bidding
    requires Proper(s)
  {
    var start := Next(s.turn);
    s.(answers := s.answers[s.turn := 1], multiple := 0, top := s.turn, turn := start, first := start)
  }

  /**
   * The index that stays behind in the first loop makes no difference, unless the next seat has passed
   * and the one after it has not.
   */
  lemma IndexAgrees(s: Bidding)
    requires Proper(s)
    ensures var t := AfterFirstBid(s);
      SeekFirst(t, t.turn, 0) == SeekFollowing(t, 0) <==>
      !(s.answers[Next(s.turn)] == -1 && s.answers[Next(Next(s.turn))] != -1)
  {
    hide SeekFirst;
    var t := AfterFirstBid(s);
    SeekFirstIs(t, t.turn);
    var u := t.(turn := Next(t.turn));
    assert t.answers[t.turn] == -1 ==> SeekFollowing(t, 0) == SeekFollowing(u, 1);
    assert u.answers[u.turn] == -1 ==> SeekFollowing(u, 1) == SeekFollowing(u.(turn := Next(u.turn)), 2);
  }
}
