// The answers in the auction, as the handler of the game takes them: the loops
// over the seats, proved to be the auction's step.

module DdzBidding {
  import opened Deck
  import opened DdzTable
  import opened DdzDesk
  import Auction

  /** `s` is a state of the auction at the desk `t`, asking for an answer. */
  ghost predicate Bidding(t: Table, s: Auction.Bidding)
  {
    && Formed(t) && t.running && t.landlord == NOBODY && Auction.Proper(s) && s.outcome == Auction.Asking
    && s.multiple >= -1 && -1 <= s.top < SEATS && (s.multiple == -1 <==> s.top == -1)
  }

  lemma BiddingFormed(t: Table, s: Auction.Bidding)
    requires Bidding(t, s)
    ensures Formed(Settled(t, s))
    ensures Settled(t, s).seats == t.seats && Full(t.seats)
  {
  }

  /** The fields that the loops look at. */
  lemma BiddingShown(t: Table, s: Auction.Bidding)
    requires Bidding(t, s)
    ensures |t.seats| == SEATS && s.outcome == Auction.Asking
    ensures var u := Settled(t, s);
      && u.seats == t.seats && u.turn == s.turn && u.first == s.first && u.answers == s.answers && u.code == t.code
      && u.topBidder == ClientAt(t, s.top) && |u.seats| == |u.answers| == SEATS && Auction.Proper(s)
  {
  }

  /** The turn moves on. */
  lemma BiddingMoves(t: Table, s: Auction.Bidding)
    requires Bidding(t, s)
    ensures Auction.Proper(s)
    ensures var next := s.(turn := Auction.Next(s.turn));
      Bidding(t, next) && Settled(t, next) == Settled(t, s).(turn := next.turn)
  {
  }

  lemma SameSeat(seats: seq<int>, p: int, q: int)
    requires SeatsDiffer(seats) && Full(seats) && 0 <= p < SEATS && 0 <= q < SEATS
    ensures seats[p] == seats[q] <==> p == q
  {
  }

  /** The comparisons of clients in the loops are comparisons of seats. */
  lemma ClientsAreSeats(t: Table, s: Auction.Bidding)
    requires Bidding(t, s)
    ensures t.seats[Auction.Next(s.turn)] == t.seats[s.first] <==> Auction.Next(s.turn) == s.first
    ensures s.top != -1 ==> (t.seats[s.turn] == ClientAt(t, s.top) <==> s.turn == s.top)
  {
    SameSeat(t.seats, Auction.Next(s.turn), s.first);
    if s.top != -1 { SameSeat(t.seats, s.turn, s.top); }
  }

  lemma DecidedFor(t: Table, s: Auction.Bidding, p: int)
    requires Bidding(t, s)
    ensures Settled(t, s.(outcome := Auction.Landlord(p))) ==
      Queued(Settled(t, s).(landlord := ClientAt(t, p)), GameLandlord(ClientAt(t, p), t.code + 1))
    ensures Settled(t, s.(outcome := Auction.Redeal)) == Queued(Settled(t, s), GameStart(t.code + 1))
    ensures Settled(t, s.(outcome := Auction.Stalled)) == Settled(t, s)
  {
  }

  /** The landlord is decided. */
  method SetLandlord(desk: Desk, lord: int)
    modifies desk`landlord, desk`verifiCode, desk`tasks
    ensures desk.View() == Queued(old(desk.View()).(landlord := lord), GameLandlord(lord, old(desk.verifiCode) + 1))
  {
    desk.landlord := lord;
    desk.QueueTask(GameLandlord(lord, desk.verifiCode + 1));
  }

  /** The loop after the first bid; the answer it looks at is that of the seat it started with. */
  method SeekFirst(desk: Desk, ghost t: Table, ghost s: Auction.Bidding)
    requires Bidding(t, s) && s.top != -1 && desk.View() == Settled(t, s)
    modifies desk
    ensures desk.View() == Settled(t, Auction.SeekFirst(s, s.turn, 0))
  {
    hide RoundFormed;
    BiddingFormed(t, s);
    var looked := desk.currPos;
    var count := 0;
    ghost var now := s;
    while count < SEATS
      invariant 0 <= count <= 2 && now == s.(turn := now.turn)
      invariant Bidding(t, now) && desk.View() == Settled(t, now)
      invariant Auction.SeekFirst(now, looked, count) == Auction.SeekFirst(s, looked, 0)
      decreases SEATS - count
    {
      BiddingFormed(t, now);
      if count < 2 {
        if desk.bidInfo[looked] == -1 {
          desk.MoveNext();
          now := now.(turn := Auction.Next(now.turn));
        } else {
          return;
        }
      } else {
        DecidedFor(t, now, now.top);
        SetLandlord(desk, desk.tempLandlord);
        return;
      }
      count := count + 1;
    }
  }

  /** The loop after a later answer. */
  method SeekNext(desk: Desk, ghost t: Table, ghost s: Auction.Bidding)
    requires Bidding(t, s) && s.top != -1 && desk.View() == Settled(t, s)
    modifies desk
    ensures desk.View() == Settled(t, Auction.SeekNext(s, 0))
  {
    hide Settled, Bidding, Formed, SeatsDiffer, Auction.SeekNext;
    BiddingShown(t, s);
    var i := 0;
    ghost var now := s;
    while i < 2
      invariant 0 <= i <= 2 && Bidding(t, now) && now == s.(turn := now.turn) && Auction.Proper(now)
      invariant desk.View() == Settled(t, now)
      invariant Auction.SeekNext(now, i) == Auction.SeekNext(s, 0)
    {
      BiddingFormed(t, now);
      BiddingShown(t, now);
      ClientsAreSeats(t, now);
      SeekNextOn(now, i);
      if desk.Next() == desk.First() {
        DecidedFor(t, now, now.top);
        SetLandlord(desk, desk.tempLandlord);
        return;
      } else {
        BiddingMoves(t, now);
        desk.MoveNext();
        now := now.(turn := Auction.Next(now.turn));
        BiddingFormed(t, now);
        BiddingShown(t, now);
        ClientsAreSeats(t, now);
        if desk.bidInfo[desk.currPos] == -1 {
          i := i + 1;
          continue;
        } else {
          if desk.Current() == desk.tempLandlord {
            DecidedFor(t, now, now.top);
            SetLandlord(desk, desk.tempLandlord);
          }
          return;
        }
      }
    }
    SeekNextStalls(now);
    DecidedFor(t, now, now.top);
  }

  lemma SeekNextOn(s: Auction.Bidding, i: nat)
    requires Auction.Proper(s) && i < 2 && s.outcome == Auction.Asking
    ensures var next := s.(turn := Auction.Next(s.turn));
      Auction.SeekNext(s, i) ==
        if next.turn == s.first then s.(outcome := Auction.Landlord(s.top))
        else if s.answers[next.turn] == -1 then Auction.SeekNext(next, i + 1)
        else if next.turn == s.top then next.(outcome := Auction.Landlord(s.top)) else next
  {
  }

  lemma SeekNextStalls(s: Auction.Bidding)
    requires Auction.Proper(s)
    ensures Auction.SeekNext(s, 2) == s.(outcome := Auction.Stalled)
  {
  }

  lemma BidBegins(t: Table, client: int, isBid: bool)
    requires Formed(t) && CanBid(t, client)
    ensures SeatOf(t.seats, client) == t.turn && Full(t.seats)
    ensures Step(t, Bid(client, isBid)) == Settled(t, BidAnswer(t, isBid))
    ensures Bidding(t, BidView(t)) && Settled(t, BidView(t)) == t
  {
  }

  /** A pass before any bid. */
  method PassBeforeBid(desk: Desk, ghost t: Table)
    requires Formed(t) && Bidding(t, BidView(t)) && t.multiple == -1
    requires desk.View() == Settled(t, BidView(t).(answers := t.answers[t.turn := -1]))
    modifies desk
    ensures desk.View() == Settled(t, BidAnswer(t, false))
  {
    hide RoundFormed;
    ghost var s := BidView(t).(answers := t.answers[t.turn := -1]);
    BiddingFormed(t, s);
    ClientsAreSeats(t, s);
    BidderOrNone(t);
    if desk.Next() == desk.First() {
      DecidedFor(t, s, t.bidPos);
      if desk.declareCount == 0 {
        desk.QueueTask(GameStart(desk.verifiCode + 1));
      } else {
        SetLandlord(desk, desk.clients[desk.bidPos]);
      }
    } else {
      desk.MoveNext();
    }
  }

  lemma BidderOrNone(t: Table)
    requires Formed(t)
    ensures t.declares >= 0 && (t.declares > 0 ==> 0 <= t.bidPos < SEATS)
  {
  }

  /** The first bid. */
  method FirstBid(client: int, desk: Desk, ghost t: Table)
    requires Formed(t) && Bidding(t, BidView(t)) && t.multiple == -1 && client == t.seats[t.turn]
    requires desk.View() == t.(answers := t.answers[t.turn := 1])
    modifies desk
    ensures desk.View() == Settled(t, BidAnswer(t, true))
  {
    ghost var s := Auction.AfterFirstBid(BidView(t));
    Answered(t, true);
    hide Settled, RoundFormed, Bidding;
    desk.IncreaseMultiple();
    desk.tempLandlord := client;
    desk.SetStartPos(desk.NextPosIndex());
    SeekFirst(desk, t, s);
  }

  /** An answer after a bid. */
  method LaterAnswer(client: int, desk: Desk, isBid: bool, ghost t: Table)
    requires Formed(t) && Bidding(t, BidView(t)) && t.multiple != -1 && client == t.seats[t.turn]
    requires desk.View() == t.(answers := t.answers[t.turn := if isBid then 1 else -1])
    modifies desk
    ensures desk.View() == Settled(t, BidAnswer(t, isBid))
  {
    Answered(t, isBid);
    hide Settled, RoundFormed, Bidding;
    if isBid {
      desk.IncreaseMultiple();
      desk.tempLandlord := client;
    }
    SeekNext(desk, t, AfterLater(t, isBid));
  }

  /** An answer in the auction. */
  method OnClientBid(client: int, desk: Desk, isBid: bool)
    requires desk.Ok()
    modifies desk
    ensures desk.View() == Step(old(desk.View()), Bid(client, isBid))
  {
    hide Settled, RoundFormed;
    if !desk.running || desk.landlord != NOBODY || desk.Current() != client {
      return;
    }
    var posIndex := desk.PosIndexOf(client);
    if posIndex == -1 {
      return;
    }
    ghost var t := desk.View();
    BidBegins(t, client, isBid);
    Answered(t, isBid);
    desk.bidInfo := desk.bidInfo[posIndex := if isBid then 1 else -1];
    if desk.multiple == -1 {
      if isBid {
        FirstBid(client, desk, t);
      } else {
        PassBeforeBid(desk, t);
      }
    } else {
      LaterAnswer(client, desk, isBid, t);
    }
  }

  /** The state of the auction when the loop after a later answer starts. */
  ghost function AfterLater(t: Table, isBid: bool): Auction.Bidding
    requires Formed(t) && t.turn != -1
  {
    var s := BidView(t).(answers := t.answers[t.turn := if isBid then 1 else -1]);
    if isBid then s.(multiple := s.multiple + 1, top := s.turn) else s
  }

  /** What the desk shows when the answer is noted, and what the answer is in the auction. */
  lemma Answered(t: Table, isBid: bool)
    requires Formed(t) && Bidding(t, BidView(t))
    ensures t.multiple == -1 && isBid ==>
      var s := Auction.AfterFirstBid(BidView(t));
      && Bidding(t, s) && BidAnswer(t, true) == Auction.SeekFirst(s, s.turn, 0)
      && Settled(t, s) == t.(answers := t.answers[t.turn := 1], multiple := 0, topBidder := t.seats[t.turn],
                             turn := Auction.Next(t.turn), first := Auction.Next(t.turn))
    ensures t.multiple == -1 && !isBid ==>
      Settled(t, BidView(t).(answers := t.answers[t.turn := -1])) == t.(answers := t.answers[t.turn := -1])
    ensures t.multiple != -1 ==>
      var s := AfterLater(t, isBid);
      && Bidding(t, s) && BidAnswer(t, isBid) == Auction.SeekNext(s, 0)
      && Settled(t, s) ==
         if isBid then t.(answers := t.answers[t.turn := 1], multiple := t.multiple + 1, topBidder := t.seats[t.turn])
         else t.(answers := t.answers[t.turn := -1])
  {
    hide Auction.SeekFirst, Auction.SeekNext;
  }
}
