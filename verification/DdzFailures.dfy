// Runs from a new desk, event by event: one that comes into play, and those on
// which the lead or the auction is not as promised.

module DdzFailures {
  import opened PokerInfo
  import opened Cards
  import opened Patterns
  import opened BeatsOrder
  import opened PokerFinder
  import opened BigFinder
  import opened Deck
  import opened DdzTable
  import opened DdzRound
  import opened DdzRuns
  import Auction
  import DdzPlugin

  // --------------------------------------------------------------------- the opening

  /** Three clients sit down and get ready; the cards are dealt and the auction opens. */
  ghost function Opening(rand: nat -> nat): seq<Event>
  {
    [Sit(0, 1), Sit(1, 2), Sit(2, 3), Begin, Fire(0, rand), Fire(0, rand)]
  }

  function BegunTable(): Table
  {
    NewTable().(running := true, seats := [1, 2, 3], code := 1, tasks := [GameStart(1)])
  }

  /** The first deal, with the opening queued. */
  function DealtTable(rand: nat -> nat): Table
  {
    var deck := Shuffled(DeskPokers(), rand, DECK_SIZE - 1);
    BegunTable().(deck := deck, hands := Dealt(deck, DEALT_CARDS), code := 2, tasks := [GameBid(2)])
  }

  /** The first client is asked whether it bids. */
  function OpenTable(rand: nat -> nat): Table
  {
    DealtTable(rand).(bided := true, turn := 0, first := 0, bidPos := 0, tasks := [])
  }

  function OpenRound(): Round
  {
    FreshRound(1, -1).(dealt := true, last := 0, asked := true, open := true, openedAt := 0, clean := true)
  }

  /** Three clients sit down. */
  lemma AllSeated()
    ensures Reached([Sit(0, 1), Sit(1, 2), Sit(2, 3)], NewTable().(seats := [1, 2, 3]), FreshRound(0, -1))
  {
    hide DeskPokers, After, Story;
    var t, r := NewTable(), FreshRound(0, -1);
    NothingYet();
    ReachedOn([], t, r, Sit(0, 1));
    assert [] + [Sit(0, 1)] == [Sit(0, 1)];
    ReachedOn([Sit(0, 1)], t.(seats := [1, NOBODY, NOBODY]), r, Sit(1, 2));
    assert [Sit(0, 1)] + [Sit(1, 2)] == [Sit(0, 1), Sit(1, 2)];
    ReachedOn([Sit(0, 1), Sit(1, 2)], t.(seats := [1, 2, NOBODY]), r, Sit(2, 3));
    assert [Sit(0, 1), Sit(1, 2)] + [Sit(2, 3)] == [Sit(0, 1), Sit(1, 2), Sit(2, 3)];
  }

  lemma Begun()
    ensures Reached([Sit(0, 1), Sit(1, 2), Sit(2, 3), Begin], BegunTable(), FreshRound(1, -1))
  {
    hide DeskPokers, After, Story;
    AllSeated();
    ReachedOn([Sit(0, 1), Sit(1, 2), Sit(2, 3)], NewTable().(seats := [1, 2, 3]), FreshRound(0, -1), Begin);
    assert [Sit(0, 1), Sit(1, 2), Sit(2, 3)] + [Begin] == [Sit(0, 1), Sit(1, 2), Sit(2, 3), Begin];
  }

  lemma Opened(rand: nat -> nat)
    ensures Reached(Opening(rand), OpenTable(rand), OpenRound())
  {
    hide DeskPokers, After, Story, Shuffled, Dealt;
    Begun();
    var es := [Sit(0, 1), Sit(1, 2), Sit(2, 3), Begin];
    ReachedOn(es, BegunTable(), FreshRound(1, -1), Fire(0, rand));
    ReachedOn(es + [Fire(0, rand)], DealtTable(rand), FreshRound(1, -1).(dealt := true), Fire(0, rand));
    assert es + [Fire(0, rand)] + [Fire(0, rand)] == Opening(rand);
  }

  /** With the opening, everyone holds seventeen cards. */
  lemma OpenHands(rand: nat -> nat)
    ensures var t := OpenTable(rand);
      Formed(t) && |t.hands[0]| == 17 && |t.hands[1]| == 17 && |t.hands[2]| == 17
  {
    hide Step, Track, After, Story, DeskPokers, Shuffled, Dealt, Held, Lead, Auctioned, Answered, Sound, CodesRise;
    Opened(rand);
    EveryRun(Opening(rand), OpenTable(rand), OpenRound());
  }

  // ---------------------------------------------------------------------- answers

  /** An answer leads the auction on to `s`, the desk to `u` and its story to `v`. */
  lemma AnswerTaken(es: seq<Event>, t: Table, r: Round, c: int, isBid: bool, s: Auction.Bidding, u: Table, v: Round)
    requires Reached(es, t, r) && CanBid(t, c) && s == Auction.Answer(BidView(t), isBid, Declarer(t))
    requires u == Settled(t, s)
    requires v == r.(given := r.given + [isBid], bidder := if isBid then c else r.bidder,
                    latePass := r.latePass || (Alive(t) && !isBid))
    ensures Reached(es + [Bid(c, isBid)], u, v)
  {
    hide After, Story, Auction.Answer, Settled, Alive;
    ReachedOn(es, t, r, Bid(c, isBid));
  }

  // ------------------------------------------------------------- the landlord bids once

  /** The first client bids, the others pass. */
  ghost function OneBid(rand: nat -> nat): seq<Event>
  {
    Opening(rand) + [Bid(1, true), Bid(2, false), Bid(3, false)]
  }

  function OneBidTable(rand: nat -> nat): Table
  {
    OpenTable(rand).(first := 1, answers := [1, -1, -1], multiple := 0, topBidder := 1, landlord := 1, code := 3,
                     tasks := [GameLandlord(1, 3)])
  }

  function OneBidRound(): Round
  {
    OpenRound().(given := [true, false, false], bidder := 1)
  }

  lemma OneBidTaken(rand: nat -> nat)
    ensures Reached(OneBid(rand), OneBidTable(rand), OneBidRound())
  {
    hide After, Story, Shuffled, Dealt, DeskPokers, Reached;
    var es, t, r := Opening(rand), OpenTable(rand), OpenRound();
    Opened(rand);
    OpenHands(rand);
    var t1, r1 := t.(turn := 1, first := 1, answers := [1, 0, 0], multiple := 0, topBidder := 1),
               r.(given := [true], bidder := 1);
    AnswerTaken(es, t, r, 1, true, Auction.Bidding(1, 1, [1, 0, 0], 0, 0, Auction.Asking), t1, r1);
    var t2, r2 := t1.(turn := 2, answers := [1, -1, 0]), r.(given := [true, false], bidder := 1);
    AnswerTaken(es + [Bid(1, true)], t1, r1, 2, false, Auction.Bidding(2, 1, [1, -1, 0], 0, 0, Auction.Asking), t2, r2);
    AnswerTaken(es + [Bid(1, true)] + [Bid(2, false)], t2, r2, 3, false,
                Auction.Bidding(0, 1, [1, -1, -1], 0, 0, Auction.Landlord(0)), OneBidTable(rand), OneBidRound());
    assert es + [Bid(1, true)] + [Bid(2, false)] + [Bid(3, false)] == OneBid(rand);
  }

  /** The bottom cards are given out: from here on play goes by the rules. */
  lemma InPlayAfterOneBid(rand: nat -> nat) returns (u: Table, v: Round)
    ensures Reached(OneBid(rand) + [Fire(0, rand)], u, v)
    ensures u.running && v.bottomOut && u.landlord == 1 && LeadOrPassThroughout(u) && AsPromised(u, v)
  {
    hide After, Story, Shuffled, Dealt, DeskPokers, Reached, LeadOrPassThroughout, Inv, Step, Track, AsPromised;
    var t, r, e := OneBidTable(rand), OneBidRound(), Fire(0, rand);
    OneBidTaken(rand);
    EveryRun(OneBid(rand), t, r);
    ReachedOn(OneBid(rand), t, r, e);
    u, v := Step(t, e), Track(r, t, e);
    LeadGiven(t, r, 0, rand);
    LeadExactly(OneBid(rand), t, r, 0, rand);
    OpenStays(t, r, rand);
    AuctionExactly(OneBid(rand) + [e], u, v);
  }

  lemma OpenStays(t: Table, r: Round, rand: nat -> nat)
    requires Formed(t) && t.tasks == [GameLandlord(t.landlord, t.code)] && Effective(t, t.tasks[0])
    ensures Formed(Step(t, Fire(0, rand)))
    ensures var v := Track(r, t, Fire(0, rand)); v == r.(bottomOut := true)
    ensures Step(t, Fire(0, rand)).landlord == t.landlord
  {
    StepFormed(t, Fire(0, rand));
    hide AddCards;
  }

  /** The bottom cards are given out while the guard fails. */
  lemma BottomFails(es: seq<Event>, t: Table, r: Round, i: nat, rand: nat -> nat) returns (u: Table, v: Round)
    requires Reached(es, t, r) && t.running && !LandlordLeads(t) && t.landlord != NOBODY && Seated(t, t.landlord)
    requires i < |t.tasks| && t.tasks[i] == GameLandlord(t.landlord, t.code)
    ensures Reached(es + [Fire(i, rand)], u, v)
    ensures u.running && v.bottomOut && Current(u) == u.landlord == t.landlord
    ensures u.shower == t.shower && u.poker == t.poker
    ensures TurnHand(u) == AddCards(t.hands[SeatOf(t.seats, t.landlord)], t.deck[DEALT_CARDS..])
    ensures !LeadOrPass(u) && !LeadOrPassThroughout(u)
  {
    hide After, Story, Reached, LeadOrPassThroughout, Inv, LandlordLeads, AddCards, LeadOrPass;
    var e := Fire(i, rand);
    EveryRun(es, t, r);
    InvFormed(t, r);
    ReachedOn(es, t, r, e);
    u, v := Step(t, e), Track(r, t, e);
    LeadGiven(t, r, i, rand);
    LeadExactly(es, t, r, i, rand);
  }

  /**
   * The first failure of the lead: the landlord has the turn when it is chosen, and leads a card before the
   * bottom cards are out. These give it the turn again: it faces its own hand, and may not pass. What it is
   * made to do when it is overdue is not taken either.
   */
  lemma EarlyPlayBreaksLead(es: seq<Event>, t: Table, r: Round, c: Card, rand: nat -> nat) returns (u: Table, v: Round)
    requires Reached(es, t, r) && t.running && t.landlord != NOBODY && !r.bottomOut && t.poker == ZeroHand
    requires Current(t) == t.landlord && c in TurnHand(t) && |TurnHand(t)| > 1
    ensures t.tasks != [] && Reached(es + [Play(t.landlord, [Text(c)]), Fire(|t.tasks| - 1, rand)], u, v)
    ensures u.running && v.bottomOut && Current(u) == u.landlord == u.shower && u.poker == Hand(Single, c.value, 1)
    ensures TurnHand(u) == AddCards(EraseCards(TurnHand(t), [c]), t.deck[DEALT_CARDS..])
    ensures !CanPass(u, u.landlord) && !LeadOrPassThroughout(u)
    ensures DdzPlugin.IsOverdue(u) && !Counts(u, DdzPlugin.Overdue(u))
  {
    hide After, Story, Reached, LeadOrPassThroughout, Step, Track, TakesPlay, CardsKept, Lead, Auctioned, Answered,
      Sound, CodesRise, EraseCards, AddCards;
    var e := Play(t.landlord, [Text(c)]);
    EveryRun(es, t, r);
    SingleEarly(t, r, c, |t.hands[t.turn]| - 1);
    ReachedOn(es, t, r, e);
    u, v := BottomFails(es + [e], Step(t, e), Track(r, t, e), |t.tasks| - 1, rand);
    assert es + [e] + [Fire(|t.tasks| - 1, rand)] == es + [e, Fire(|t.tasks| - 1, rand)];
    hide Counts, DdzPlugin.IsOverdue, DdzPlugin.Overdue;
    DdzPlugin.OverdueMoves(es + [e, Fire(|t.tasks| - 1, rand)], u, v);
  }

  /** It does happen: after one bid, with any card of the first client. */
  lemma LandlordFacesItself(rand: nat -> nat, c: Card) returns (u: Table, v: Round)
    requires |OneBidTable(rand).hands| == SEATS && c in OneBidTable(rand).hands[0]
    ensures Reached(OneBid(rand) + [Play(1, [Text(c)]), Fire(0, rand)], u, v)
    ensures u.running && v.bottomOut && Current(u) == u.landlord == u.shower && u.poker == Hand(Single, c.value, 1)
    ensures TurnHand(u) == AddCards(EraseCards(OneBidTable(rand).hands[0], [c]), OneBidTable(rand).deck[DEALT_CARDS..])
    ensures !CanPass(u, u.landlord) && !LeadOrPassThroughout(u)
    ensures DdzPlugin.IsOverdue(u) && !Counts(u, DdzPlugin.Overdue(u))
  {
    hide After, Story, Shuffled, Dealt, DeskPokers, Reached, LeadOrPassThroughout, EraseCards, AddCards, Counts,
      DdzPlugin.IsOverdue, DdzPlugin.Overdue;
    OneBidTaken(rand);
    OpenHands(rand);
    u, v := EarlyPlayBreaksLead(OneBid(rand), OneBidTable(rand), OneBidRound(), c, rand);
  }

  // -------------------------------------------------------------- a robot stands still

  /** Random numbers with which the shuffle only exchanges the first card and the big joker. */
  function JokerFirst(n: nat): nat
  {
    if 0 < n < DECK_SIZE then DECK_SIZE - 1 - n else 0
  }

  function JokerDeck(): (deck: seq<Card>)
    ensures |deck| == DECK_SIZE
  {
    Swapped(DeskPokers(), DECK_SIZE - 1, 0)
  }

  lemma {:induction false} JokerShuffled(k: nat)
    requires 0 < k < DECK_SIZE
    ensures Shuffled(DeskPokers(), JokerFirst, k) == JokerDeck()
  {
    hide DeskPokers, Swapped, Spot, JokerFirst;
    JokerSpot(k);
    if k > 1 {
      JokerShuffled(k - 1);
      SameSwapped(JokerDeck(), DECK_SIZE - k);
    } else {
      assert Shuffled(DeskPokers(), JokerFirst, 0) == DeskPokers();
    }
  }

  lemma JokerSpot(k: nat)
    requires 0 < k < DECK_SIZE
    ensures Spot(JokerFirst(k - 1), DECK_SIZE - k) == if k == 1 then 0 else DECK_SIZE - k
  {
  }

  lemma SameSwapped(deck: seq<Card>, i: nat)
    requires i < |deck|
    ensures Swapped(deck, i, i) == deck
  {
  }

  /** The first seat is dealt the big joker, and with the bottom cards it never has both these suits of a value. */
  lemma JokerDealt(x: int)
    ensures BigJokerCard in Dealt(JokerDeck(), DEALT_CARDS)[0]
    ensures BigJokerCard !in JokerDeck()[DEALT_CARDS..]
    ensures !(HasNow(Card(x, FIRST_SUIT + 1)) && HasNow(Card(x, FIRST_SUIT + 2)))
  {
    hide Dealt;
    var deck := JokerDeck();
    DealtTo(deck, DEALT_CARDS, 0, BigJokerCard);
    assert Turn(0) == 0 && deck[0] == BigJokerCard;
    if HasNow(Card(x, FIRST_SUIT + 1)) && HasNow(Card(x, FIRST_SUIT + 2)) {
      WhereDealt(x, 1);
      WhereDealt(x, 2);
      assert false;
    }
  }

  /** The card goes to the first seat, with the deal or with the bottom cards. */
  ghost predicate HasNow(c: Card)
  {
    c in Dealt(JokerDeck(), DEALT_CARDS)[0] || c in JokerDeck()[DEALT_CARDS..]
  }

  lemma WhereDealt(x: int, s: nat)
    requires 1 <= s <= 2 && HasNow(Card(x, FIRST_SUIT + s))
    ensures x >= LOWEST && Turn(4 * (x - LOWEST) + s) == 0
  {
    hide Dealt;
    var deck, c := JokerDeck(), Card(x, FIRST_SUIT + s);
    DealtTo(deck, DEALT_CARDS, 0, c);
    assert deck[DEALT_CARDS..] == [Card(TWO, FIRST_SUIT + 3), SmallJokerCard, Card(LOWEST, FIRST_SUIT)];
    var i :| 0 <= i < DEALT_CARDS && Turn(i) == 0 && deck[i] == c;
    assert i == 4 * (i / 4) + i % 4;
    assert i == 4 * (x - LOWEST) + s;
  }

  /** Four cards of a value are one of each suit. */
  lemma FourSuits(hand: seq<Card>, x: int)
    requires IsHand(hand) && Values(hand)[x] >= 4
    ensures Card(x, FIRST_SUIT + 1) in hand && Card(x, FIRST_SUIT + 2) in hand
  {
    var four := CardsOf(hand, x);
    CardsOfCount(hand, x);
    CardsOfAscend(hand, x);
    hide CardsOf, Values;
    forall i | 0 <= i < 4
      ensures four[i].value == x && FIRST_SUIT <= four[i].suit <= FIRST_SUIT + 3
    {
      assert four[i] in four && IsCard(four[i]);
    }
    assert Less(four[0], four[1]) && Less(four[1], four[2]) && Less(four[2], four[3]);
    assert four[1] == Card(x, FIRST_SUIT + 1) && four[2] == Card(x, FIRST_SUIT + 2);
    assert four[1] in four && four[2] in four;
  }

  lemma SingleHeld(hand: seq<Card>, x: int, n: int)
    requires CanPlay(hand, Hand(Single, x, n))
    ensures n == 1 && Values(hand)[x] >= 1
  {
    var m: multiset<int> :| m <= Values(hand) && Matches(m, Hand(Single, x, n));
    assert m[x] == 1;
  }

  /** A hand without a bomb and without the big joker does not beat it. */
  lemma JokerNotBeaten(hand: seq<Card>)
    requires IsHand(hand) && !HasBomb(hand) && BigJokerCard !in hand
    ensures !CanBeat(hand, Hand(Single, BIG_JOKER, 1))
  {
    var joker := Hand(Single, BIG_JOKER, 1);
    forall g: Hand | CanPlay(hand, g) && IsLarge(g, joker)
      ensures false
    {
      hide Values, IsHand, CanPlay;
      if g.kind == Single {
        SingleHeld(hand, g.value, g.length);
        CountBound(hand, g.value);
        assert false;
      } else if g.kind == Bomb {
        BombPlayed(hand, g.value, g.length);
        assert false;
      } else {
        JokersPlayed(hand);
        assert false;
      }
    }
  }

  /** The search finds nothing then, and nothing else than that is allowed to it. */
  lemma NothingFound(hand: seq<Card>)
    requires IsHand(hand) && !HasBomb(hand) && BigJokerCard !in hand
    ensures forall found :: BigFound(hand, Hand(Single, BIG_JOKER, 1), found) <==> found == []
  {
    JokerNotBeaten(hand);
    var joker := Hand(Single, BIG_JOKER, 1);
    forall found | BigFound(hand, joker, found) && found != []
      ensures false
    {
      var g: Hand :| Forms(hand, found, g) && IsLarge(g, joker);
      FormsCanPlay(hand, found, g);
      assert false;
    }
  }

  /** The hand of the landlord after it has led the big joker and got the bottom cards. */
  lemma JokerHand(hand: seq<Card>)
    requires IsHand(hand)
    requires hand ==
      AddCards(EraseCards(Dealt(JokerDeck(), DEALT_CARDS)[0], [BigJokerCard]), JokerDeck()[DEALT_CARDS..])
    requires IsHand(Dealt(JokerDeck(), DEALT_CARDS)[0])
    ensures !HasBomb(hand) && BigJokerCard !in hand
  {
    hide Dealt, JokerDeck, AddCards, EraseCards, Kept, Dropped, IsHand, Values;
    var dealt, bottom := Dealt(JokerDeck(), DEALT_CARDS)[0], JokerDeck()[DEALT_CARDS..];
    var rest := EraseCards(dealt, [BigJokerCard]);
    ErasedCards(dealt, [BigJokerCard]);
    KeptIsHand(dealt, [BigJokerCard]);
    JokerGone(dealt);
    JokerDealt(0);
    CardsIn(rest, bottom, BigJokerCard);
    if HasBomb(hand) {
      var x :| Values(hand)[x] >= 4;
      FourSuits(hand, x);
      JokerDealt(x);
      CardsIn(rest, bottom, Card(x, FIRST_SUIT + 1));
      CardsIn(rest, bottom, Card(x, FIRST_SUIT + 2));
      assert false;
    }
  }

  lemma {:induction false} JokerGone(hand: seq<Card>)
    ensures BigJokerCard !in Kept(hand, [BigJokerCard])
  {
    if hand != [] { JokerGone(hand[..|hand| - 1]); }
  }

  /**
   * A run on which a robot cannot move: as landlord it leads the big joker before the bottom cards, and holds no
   * bomb. The search finds nothing then, and the pass is refused.
   */
  lemma RobotStandsStill() returns (u: Table, v: Round)
    ensures Reached(OneBid(JokerFirst) + [Play(1, [Text(BigJokerCard)]), Fire(0, JokerFirst)], u, v)
    ensures u.running && v.bottomOut && Current(u) == u.landlord == u.shower
    ensures forall found :: BigFound(TurnHand(u), u.poker, found) ==>
      found == [] && !TakesPlay(u, Current(u), RobotParams(found))
    ensures BigFound(TurnHand(u), u.poker, [])
  {
    hide Dealt, DeskPokers, Shuffled, JokerDeck, AddCards, EraseCards, After, Story, LeadOrPassThroughout, BigFound,
      HasBomb, TakesPlay, IsHand;
    var t := OneBidTable(JokerFirst);
    JokerShuffled(DECK_SIZE - 1);
    JokerDealt(0);
    OneBidTaken(JokerFirst);
    EveryRun(OneBid(JokerFirst), t, OneBidRound());
    u, v := LandlordFacesItself(JokerFirst, BigJokerCard);
    var es := OneBid(JokerFirst) + [Play(1, [Text(BigJokerCard)]), Fire(0, JokerFirst)];
    EveryRun(es, u, v);
    HandsSound(t);
    HandsSound(u);
    JokerHand(TurnHand(u));
    NothingFound(TurnHand(u));
    RobotMoves(es, u, v, []);
  }

  lemma HandsSound(t: Table)
    requires Formed(t) && Sound(t) && t.turn != -1
    ensures IsHand(t.hands[t.turn])
  {
    hide IsHand;
  }

  // ------------------------------------------------- another client leads before the landlord

  /** The second client outbids the first, which then passes: the landlord is chosen, the turn is with the first. */
  ghost function TwoBids(rand: nat -> nat): seq<Event>
  {
    Opening(rand) + [Bid(1, true), Bid(2, true), Bid(3, false), Bid(1, false)]
  }

  function TwoBidsTable(rand: nat -> nat): Table
  {
    OpenTable(rand).(first := 1, answers := [-1, 1, -1], multiple := 1, topBidder := 2, landlord := 2, code := 3,
                     tasks := [GameLandlord(2, 3)])
  }

  function TwoBidsRound(): Round
  {
    OpenRound().(given := [true, true, false, false], bidder := 2)
  }

  lemma TwoBidsTaken(rand: nat -> nat)
    ensures Reached(TwoBids(rand), TwoBidsTable(rand), TwoBidsRound())
  {
    hide After, Story, Shuffled, Dealt, DeskPokers, Reached;
    var es, t, r := Opening(rand), OpenTable(rand), OpenRound();
    Opened(rand);
    OpenHands(rand);
    var t1, r1 := t.(turn := 1, first := 1, answers := [1, 0, 0], multiple := 0, topBidder := 1),
               r.(given := [true], bidder := 1);
    AnswerTaken(es, t, r, 1, true, Auction.Bidding(1, 1, [1, 0, 0], 0, 0, Auction.Asking), t1, r1);
    var es1 := es + [Bid(1, true)];
    var t2, r2 := t1.(turn := 2, answers := [1, 1, 0], multiple := 1, topBidder := 2),
               r.(given := [true, true], bidder := 2);
    AnswerTaken(es1, t1, r1, 2, true, Auction.Bidding(2, 1, [1, 1, 0], 1, 1, Auction.Asking), t2, r2);
    var es2 := es1 + [Bid(2, true)];
    var t3, r3 := t2.(turn := 0, answers := [1, 1, -1]), r.(given := [true, true, false], bidder := 2);
    AnswerTaken(es2, t2, r2, 3, false, Auction.Bidding(0, 1, [1, 1, -1], 1, 1, Auction.Asking), t3, r3);
    AnswerTaken(es2 + [Bid(3, false)], t3, r3, 1, false,
                Auction.Bidding(0, 1, [-1, 1, -1], 1, 1, Auction.Landlord(1)), TwoBidsTable(rand), TwoBidsRound());
    assert es2 + [Bid(3, false)] + [Bid(1, false)] == TwoBids(rand);
  }

  lemma PassTaken(es: seq<Event>, t: Table, r: Round, c: int) returns (v: Round)
    requires Reached(es, t, r) && CanPass(t, c)
    ensures var next := Auction.Next(t.turn);
      var u := t.(turn := next, poker := if t.seats[next] == t.shower then ZeroHand else t.poker);
      Reached(es + [Play(c, [[PASS]])], u, v) && Formed(u)
  {
    hide After, Story, Inv, PassOn;
    EveryRun(es, t, r);
    PassIs(t, r, c);
    ReachedOn(es, t, r, Play(c, [[PASS]]));
    v := Track(r, t, Play(c, [[PASS]]));
  }

  /**
   * The second failure of the lead: another client leads a card before the bottom cards are out, and the
   * others pass. When the bottom cards give the landlord the turn, it may pass with nothing on the table.
   */
  lemma LandlordPassesOnNothing(rand: nat -> nat, c: Card) returns (u: Table, v: Round)
    requires |TwoBidsTable(rand).hands| == SEATS && c in TwoBidsTable(rand).hands[0]
    ensures Reached(TwoBids(rand) + [Play(1, [Text(c)]), Play(2, [[PASS]]), Play(3, [[PASS]]), Fire(0, rand)], u, v)
    ensures u.running && v.bottomOut && Current(u) == u.landlord == 2 && u.poker == ZeroHand
    ensures CanPass(u, u.landlord) && !LeadOrPassThroughout(u)
  {
    hide After, Story, Shuffled, Dealt, DeskPokers, Reached, LeadOrPassThroughout, Inv, Step, Track, TakesPlay;
    var es, t, r, e := TwoBids(rand), TwoBidsTable(rand), TwoBidsRound(), Play(1, [Text(c)]);
    TwoBidsTaken(rand);
    EveryRun(es, t, r);
    OpenHands(rand);
    SingleEarly(t, r, c, 16);
    ReachedOn(es, t, r, e);
    var t1, r1 := Step(t, e), Track(r, t, e);
    var r2 := PassTaken(es + [e], t1, r1, 2);
    var r3 := PassTaken(es + [e] + [Play(2, [[PASS]])], t1.(turn := 2), r2, 3);
    var passed := es + [e] + [Play(2, [[PASS]])] + [Play(3, [[PASS]])];
    u, v := BottomFails(passed, t1.(turn := 0, poker := ZeroHand), r3, 0, rand);
    assert passed + [Fire(0, rand)]
           == es + [e, Play(2, [[PASS]]), Play(3, [[PASS]]), Fire(0, rand)];
  }

  // --------------------------------------------------------------------- a new deal

  /** All three pass. */
  ghost function AllPass(rand: nat -> nat): seq<Event>
  {
    Opening(rand) + [Bid(1, false), Bid(2, false), Bid(3, false)]
  }

  /** A new deal is queued, `late` times over. */
  function RedealTable(rand: nat -> nat, late: nat): Table
  {
    OpenTable(rand).(turn := 2, answers := [-1, -1, -1], code := 3 + late,
                     tasks := seq(late + 1, i requires 0 <= i => GameStart(3 + i)))
  }

  function Passes(n: nat): seq<bool>
  {
    seq(n, i => false)
  }

  function RedealRound(late: nat): Round
  {
    OpenRound().(given := Passes(3 + late), latePass := late > 0)
  }

  lemma AllPassTaken(rand: nat -> nat)
    ensures Reached(AllPass(rand), RedealTable(rand, 0), RedealRound(0))
  {
    hide After, Story, Shuffled, Dealt, DeskPokers, Reached;
    var es, t, r := Opening(rand), OpenTable(rand), OpenRound();
    Opened(rand);
    OpenHands(rand);
    var t1, r1 := t.(turn := 1, answers := [-1, 0, 0]), r.(given := [false]);
    AnswerTaken(es, t, r, 1, false, Auction.Bidding(1, 0, [-1, 0, 0], -1, -1, Auction.Asking), t1, r1);
    var t2, r2 := t1.(turn := 2, answers := [-1, -1, 0]), r.(given := [false, false]);
    AnswerTaken(es + [Bid(1, false)], t1, r1, 2, false,
                Auction.Bidding(2, 0, [-1, -1, 0], -1, -1, Auction.Asking), t2, r2);
    assert RedealTable(rand, 0).tasks == [GameStart(3)] && Passes(3) == [false, false, false];
    AnswerTaken(es + [Bid(1, false)] + [Bid(2, false)], t2, r2, 3, false,
                Auction.Bidding(2, 0, [-1, -1, -1], -1, -1, Auction.Redeal), RedealTable(rand, 0), RedealRound(0));
    assert es + [Bid(1, false)] + [Bid(2, false)] + [Bid(3, false)] == AllPass(rand);
  }

  ghost function LatePasses(n: nat): seq<Event>
  {
    seq(n, i => Bid(3, false))
  }

  /**
   * The first failure of the auction: while the new deal is queued, the last client may pass any number of
   * times more. Each pass is taken, and queues the new deal once more under a new code.
   */
  lemma {:induction false} LatePassAgain(rand: nat -> nat, late: nat)
    ensures var t, r := RedealTable(rand, late), RedealRound(late);
      && Reached(AllPass(rand) + LatePasses(late), t, r)
      && t.running && r.open && |r.given| == 3 + late && (AsPromised(t, r) <==> late == 0)
  {
    hide After, Story, Shuffled, Dealt, DeskPokers, Reached, AsPromised, OpenTable;
    if late == 0 {
      assert AllPass(rand) + LatePasses(0) == AllPass(rand);
      AllPassTaken(rand);
    } else {
      LatePassAgain(rand, late - 1);
      OneLatePass(rand, late - 1);
      assert AllPass(rand) + LatePasses(late - 1) + [Bid(3, false)] == AllPass(rand) + LatePasses(late);
    }
    OpenIsOpen(rand);
    AuctionExactly(AllPass(rand) + LatePasses(late), RedealTable(rand, late), RedealRound(late));
  }

  lemma OpenIsOpen(rand: nat -> nat)
    ensures OpenTable(rand).running
  {
  }

  lemma OneLatePass(rand: nat -> nat, late: nat)
    requires Reached(AllPass(rand) + LatePasses(late), RedealTable(rand, late), RedealRound(late))
    ensures Reached(AllPass(rand) + LatePasses(late) + [Bid(3, false)],
                    RedealTable(rand, late + 1), RedealRound(late + 1))
  {
    hide After, Story, Shuffled, Dealt, DeskPokers;
    var t, r := RedealTable(rand, late), RedealRound(late);
    assert t.tasks + [GameStart(4 + late)] == RedealTable(rand, late + 1).tasks;
    assert r.given + [false] == RedealRound(late + 1).given;
    hide Reached;
    AnswerTaken(AllPass(rand) + LatePasses(late), t, r, 3, false,
                Auction.Bidding(2, 0, [-1, -1, -1], -1, -1, Auction.Redeal),
                RedealTable(rand, late + 1), RedealRound(late + 1));
  }

  /**
   * The second failure of the auction: after the new deal, and before the auction opens again, the client that
   * has the turn from the last one bids. The auction then opens with a bid made that it has not asked for.
   */
  lemma BidBeforeOpening(rand: nat -> nat) returns (u: Table, v: Round)
    ensures Reached(AllPass(rand) + [Fire(0, rand), Bid(3, true), Fire(0, rand)], u, v)
    ensures u.running && v.open && v.given == [] && u.multiple == 0 && !AsPromised(u, v)
  {
    hide After, Story, Shuffled, Dealt, DeskPokers, Reached;
    var es, t, r := AllPass(rand), RedealTable(rand, 0), RedealRound(0);
    AllPassTaken(rand);
    ReachedOn(es, t, r, Fire(0, rand));
    var t1, r1 := Step(t, Fire(0, rand)), Track(r, t, Fire(0, rand));
    var es1 := es + [Fire(0, rand)];
    assert t1.tasks == [GameBid(4)];
    var t2 := t1.(turn := 0, first := 0, answers := [0, 0, 1], multiple := 0, topBidder := 3);
    AnswerTaken(es1, t1, r1, 3, true, Auction.Bidding(0, 0, [0, 0, 1], 0, 2, Auction.Asking), t2,
                r1.(given := r1.given + [true], bidder := 3));
    var r2 := r1.(given := r1.given + [true], bidder := 3);
    var es2 := es1 + [Bid(3, true)];
    ReachedOn(es2, t2, r2, Fire(0, rand));
    u, v := Step(t2, Fire(0, rand)), Track(r2, t2, Fire(0, rand));
    assert es2 + [Fire(0, rand)] == es + [Fire(0, rand), Bid(3, true), Fire(0, rand)];
    AuctionExactly(es2 + [Fire(0, rand)], u, v);
  }
}
