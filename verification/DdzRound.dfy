// What a desk keeps over every run: its codes, its cards, who may do what
// when, and the course of the auction.

module DdzRound {
  import opened PokerInfo
  import opened Cards
  import opened Patterns
  import opened BeatsOrder
  import opened Deck
  import opened DdzTable
  import Auction

  /**
   * The story of a round so far.
   *
   * dealt      its cards are dealt
   * bottomOut  the bottom cards are given out
   * played     the cards that left the hands
   * trick      the hands shown since there was none on the table
   * start      its first code
   * shown      the seat of the first to have shown its cards in the round, or -1
   * last       the seat that was the last to open an auction, or since then the first to show its cards
   * bombs      the number of bombs shown in the round
   * asked      an auction has opened in the round
   * open       the auction has opened: with the seat openedAt, when declarer had shown its cards first
   * given      the answers since then
   * bidder     the last to have bid in the round, or nobody
   * clean      no bid had been made before it opened
   * latePass   a pass was given while a new deal was already queued
   */
  datatype Round = Round(
    dealt: bool,
    bottomOut: bool,
    played: seq<Card>,
    trick: seq<Hand>,
    start: int,
    shown: int,
    last: int,
    bombs: nat,
    asked: bool,
    open: bool,
    openedAt: int,
    declarer: int,
    given: seq<bool>,
    bidder: int,
    clean: bool,
    latePass: bool)

  function FreshRound(start: int, last: int): Round
  {
    Round(false, false, [], [], start, -1, last, 0, false, false, -1, -1, [], NOBODY, false, false)
  }

  /** The first to have shown its cards opens the auction, or else the seat after the last one that did. */
  function Opener(r: Round): int
  {
    if r.shown != -1 then r.shown else (r.last + 1) % SEATS
  }

  /** The story goes on with an event. */
  ghost function Track(r: Round, t: Table, e: Event): Round
    requires Formed(t)
  {
    if !Counts(t, e) then r
    else
      var u := Step(t, e);
      match e
      case Begin => FreshRound(u.code, r.last)
      case Declare(c) =>
        if r.shown != -1 then r else r.(shown := SeatOf(t.seats, c), last := SeatOf(t.seats, c))
      case Bid(c, isBid) =>
        r.(given := r.given + [isBid], bidder := if isBid then c else r.bidder,
           latePass := r.latePass || (Alive(t) && !isBid))
      case Play(_, params) =>
        r.(played := r.played + if params == [[PASS]] then [] else Dropped(t.hands[t.turn], Named(params)),
           bombs := r.bombs + if params != [[PASS]] && Formation(Values(Named(params))).kind == Bomb then 1 else 0,
           trick := if u.poker == ZeroHand then [] else if params == [[PASS]] then r.trick else r.trick + [u.poker])
      case Fire(i, _) => (
        match t.tasks[i]
        case GameStart(_) => r.(dealt := true, open := false, played := [])
        case GameBid(_) =>
          r.(open := true, asked := true, openedAt := Opener(r), last := Opener(r), declarer := r.shown, given := [],
             clean := t.multiple == -1, latePass := false)
        case GameLandlord(_, _) => r.(bottomOut := true))
      case _ => r
  }

  // -------------------------------------------------------------------- the invariants

  /** Codes rise in the order of queueing, up to the desk's code. */
  ghost predicate CodesRise(t: Table)
  {
    && (forall i :: 0 <= i < |t.tasks| ==> t.tasks[i].code <= t.code)
    && (forall i, j :: 0 <= i < j < |t.tasks| ==> t.tasks[i].code < t.tasks[j].code)
  }

  /** The last task queued will not be turned away for its code. */
  predicate Alive(t: Table)
  {
    t.tasks != [] && t.tasks[|t.tasks| - 1].code == t.code
  }

  function LastTask(t: Table): Task
    requires t.tasks != []
  {
    t.tasks[|t.tasks| - 1]
  }

  ghost predicate Sound(t: Table)
  {
    AreHands(t.hands) && IsDeck(t.deck) && OnTable(t.poker)
  }

  /** What may still take effect, by what has been decided. */
  ghost predicate Phase(t: Table, r: Round)
  {
    && r.start <= t.code
    && (t.turn != -1 ==> r.dealt && t.bided)
    && (r.open ==> t.turn != -1 && t.bided)
    && (Alive(t) && LastTask(t).GameBid? ==> r.dealt)
    && (r.played != [] ==> t.landlord != NOBODY)
    && if t.landlord != NOBODY then
         && t.turn != -1
         && if r.bottomOut then !Alive(t) else Alive(t) && LastTask(t) == GameLandlord(t.landlord, t.code)
       else
         && !r.bottomOut
         && (if Alive(t) then !LastTask(t).GameLandlord? else r.open)
  }

  /** Every card is in a hand, was played, or is among the bottom cards not given out. */
  ghost predicate CardsKept(t: Table, r: Round)
    requires |t.seats| == SEATS && |t.hands| == SEATS && |t.deck| == DECK_SIZE
  {
    r.dealt ==>
      && Held(t.hands) + multiset(r.played) + (if r.bottomOut then multiset{} else multiset(t.deck[DEALT_CARDS..]))
         == multiset(DeskPokers())
      && t.hands[0] != [] && t.hands[1] != [] && t.hands[2] != []
      && (!r.bottomOut && r.played == [] ==> |t.hands[0]| == 17 && |t.hands[1]| == 17 && |t.hands[2]| == 17)
      && (r.bottomOut && r.played == [] ==>
            forall p :: 0 <= p < SEATS ==> |t.hands[p]| == if t.seats[p] == t.landlord then 20 else 17)
  }

  /** The hand to beat is the last of an ascent, and was shown by someone; then cards have been played. */
  ghost predicate Lead(t: Table, r: Round)
    requires Formed(t)
  {
    && Ascent(r.trick)
    && (r.trick == [] <==> t.poker == ZeroHand)
    && (r.trick != [] ==> r.trick[|r.trick| - 1] == t.poker)
    && (t.shower == NOBODY ==> t.poker == ZeroHand)
    && (t.shower != NOBODY ==> r.played != [])
  }

  /** The state of an auction that opened with no bid made: a run of the auction from its opening. */
  ghost function AuctionSoFar(r: Round): Auction.Bidding
    requires Auction.IsSeat(r.openedAt)
  {
    Auction.Run(Auction.Opening(r.openedAt), r.declarer, r.given)
  }

  /** The last answer was one that the auction takes. */
  ghost predicate WasTaken(r: Round)
    requires Auction.IsSeat(r.openedAt)
  {
    r.given == [] || Auction.Takes(AuctionSoFar(r.(given := r.given[..|r.given| - 1])))
  }

  /** The desk shows the auction from its opening, if no bid had been made before that; a late pass makes it longer. */
  ghost predicate Auctioned(t: Table, r: Round)
    requires Formed(t)
  {
    r.open ==>
      && Auction.IsSeat(r.openedAt) && -1 <= r.declarer < SEATS
      && if !r.clean then t.multiple >= Auction.Bids(r.given)
         else
           && WasTaken(r)
           && var s := AuctionSoFar(r);
              if t.landlord == NOBODY then
                && s == BidView(t).(outcome := if Alive(t) then Auction.Redeal else Auction.Asking)
                && r.declarer == Declarer(t) && (r.latePass <==> |r.given| > 3)
              else
                && s.outcome.Landlord? && s.outcome.seat == SeatOf(t.seats, t.landlord)
                && s.multiple == t.multiple && s.top == SeatOf(t.seats, t.topBidder)
                && (r.latePass <==> |r.given| > 4)
  }

  /** The answers as long as there is no bid, also in the time in which a deal or an opening is queued. */
  ghost predicate Answered(t: Table)
    requires Formed(t)
  {
    t.landlord == NOBODY && t.multiple == -1 ==>
      if !Alive(t) then
        t.turn != -1 && Auction.AllPassed(BidView(t), t.first, (t.turn - t.first + SEATS) % SEATS)
      else
        && (t.turn != -1 ==> Auction.Next(t.turn) == t.first
                             && t.answers[t.first] == t.answers[Auction.Next(t.first)])
        && (LastTask(t).GameBid? ==> t.answers == [0, 0, 0])
  }

  /**
   * What keeps any auction going, also one that opened with a bid made. That one has had at most as many
   * answers as the turn has moved on.
   */
  ghost predicate GoesOn(t: Table, r: Round)
    requires Formed(t)
  {
    var late := r.open && !r.clean;
    if t.landlord != NOBODY then late ==> |r.given| <= 3
    else if t.turn == -1 then t.multiple == -1
    else
      && t.bided
      && (t.multiple == -1 || Alive(t) ==> t.first == t.bidPos)
      && (Alive(t) ==> t.declares == 0)
      && if late then
           && !Alive(t) && t.multiple != -1 && |r.given| <= Auction.Distance(BidView(t))
           && (t.turn == t.first ==> t.answers[Auction.Next(t.first)] != -1)
         else
           t.multiple != -1 ==> t.answers[Auction.Next(Auction.Next(t.first))] != -1
  }

  /** The desk knows who was first to show its cards, who opened last, who bid last, and what was shown and asked. */
  ghost predicate Remembered(t: Table, r: Round)
  {
    t.bidPos == r.last && (t.running ==>
      r.shown == Declarer(t) && r.bidder == t.topBidder && r.bombs == t.bombs && (r.asked <==> t.bided))
  }

  ghost predicate Inv(t: Table, r: Round)
  {
    && Formed(t) && CodesRise(t) && Sound(t) && Remembered(t, r)
    && (t.running ==>
          Phase(t, r) && CardsKept(t, r) && Lead(t, r) && Auctioned(t, r) && Answered(t) && GoesOn(t, r))
  }

  // ---------------------------------------------------------------------------- codes

  lemma QueuedRises(t: Table, task: Task)
    requires CodesRise(t) && task.code > t.code
    ensures CodesRise(Queued(t, task))
  {
  }

  lemma BidRises(t: Table, isBid: bool)
    requires Formed(t) && CodesRise(t) && t.turn != -1
    ensures CodesRise(BidOn(t, isBid)) && t.code <= BidOn(t, isBid).code
  {
    hide BidAnswer;
  }

  lemma RemovedRises(t: Table, i: nat)
    requires CodesRise(t) && i < |t.tasks|
    ensures CodesRise(Removed(t, i))
  {
  }

  lemma CallRises(t: Table, task: Task, rand: nat -> nat)
    requires Formed(t) && CodesRise(t) && Effective(t, task)
    ensures CodesRise(Call(t, task, rand)) && t.code <= Call(t, task, rand).code
  {
    hide Shuffled, Dealt, AddCards;
  }

  lemma CodesKept(t: Table, e: Event)
    requires Formed(t) && CodesRise(t)
    ensures CodesRise(Step(t, e)) && t.code <= Step(t, e).code
  {
    hide BidOn, Call, TakesPlay, PassOn, ShowCards, Removed, Effective, CodesRise;
    match e {
      case Play(c, params) => if TakesPlay(t, c, params) { PlayTasks(t, c, params); SameCodes(t, Step(t, e)); }
      case Bid(c, isBid) => if CanBid(t, c) { BidRises(t, isBid); }
      case Fire(i, rand) => FireRises(t, i, rand);
      case Begin =>
        if CanBegin(t) {
          var begun := Reset(t).(running := true);
          SameCodes(t, begun);
          QueuedRises(begun, GameStart(t.code + 1));
        }
      case _ => SameCodes(t, Step(t, e));
    }
  }

  lemma SameCodes(t: Table, u: Table)
    requires CodesRise(t) && u.tasks == t.tasks && u.code == t.code
    ensures CodesRise(u)
  {
  }

  lemma FireRises(t: Table, i: int, rand: nat -> nat)
    requires Formed(t) && CodesRise(t)
    ensures CodesRise(Step(t, Fire(i, rand))) && t.code <= Step(t, Fire(i, rand)).code
  {
    hide Call, CodesRise;
    if 0 <= i < |t.tasks| {
      RemovedRises(t, i);
      if Effective(t, t.tasks[i]) { CallRises(Removed(t, i), t.tasks[i], rand); }
    }
  }

  lemma PlayTasks(t: Table, client: int, params: seq<seq<int>>)
    requires Formed(t) && TakesPlay(t, client, params)
    ensures var u := Step(t, Play(client, params));
      u.tasks == t.tasks && u.code == t.code && u.deck == t.deck && u.seats == t.seats
  {
    hide IsLarge, Formation, EraseCards, NamesCards, Values;
  }

  /** Among the queued tasks at most the last carries the current code. */
  lemma OnlyLastAlive(t: Table, i: nat)
    requires CodesRise(t) && i < |t.tasks|
    ensures t.tasks[i].code == t.code ==> i == |t.tasks| - 1 && Alive(t)
  {
    var last := |t.tasks| - 1;
    if i < last {
      assert t.tasks[i].code < t.tasks[last].code <= t.code;
    }
  }

  lemma RemovedTask(t: Table, i: nat)
    requires CodesRise(t) && i < |t.tasks|
    ensures t.tasks[i].code == t.code ==> !Alive(Removed(t, i))
    ensures t.tasks[i].code != t.code ==> (Alive(Removed(t, i)) <==> Alive(t))
    ensures t.tasks[i].code != t.code && Alive(t) ==> LastTask(Removed(t, i)) == LastTask(t)
  {
    var u := Removed(t, i);
    if u.tasks != [] {
      var last := |u.tasks| - 1;
      assert u.tasks[last] == if i == |t.tasks| - 1 then t.tasks[i - 1] else t.tasks[|t.tasks| - 1];
    }
  }

  // --------------------------------------------------------------- each event keeps them

  lemma ResetSound(t: Table)
    requires Sound(t)
    ensures Sound(Reset(t))
  {
  }

  lemma BeginKeeps(t: Table, r: Round)
    requires Inv(t, r) && CanBegin(t)
    ensures Inv(BeginRound(t), FreshRound(t.code + 1, r.last))
  {
    CodesKept(t, Begin);
    StepFormed(t, Begin);
    ResetSound(t);
    hide CodesRise, AreHands, IsDeck, OnTable;
  }

  lemma DeclareKeeps(t: Table, r: Round, c: int)
    requires Inv(t, r) && CanDeclare(t, c)
    ensures Inv(DeclareCards(t, c), Track(r, t, Declare(c)))
  {
    StepFormed(t, Declare(c));
    var u, v := DeclareCards(t, c), Track(r, t, Declare(c));
    DeclareAuction(t, r, u, v);
    hide AreHands, IsDeck, OnTable, Ascent, Auctioned, Answered, RoundFormed, SeatsDiffer;
  }

  /** Showing cards does not touch an auction that has opened, as only the landlord can do that then. */
  lemma DeclareAuction(t: Table, r: Round, u: Table, v: Round)
    requires Formed(t) && Formed(u) && Auctioned(t, r) && Answered(t) && (r.open ==> t.landlord != NOBODY)
    requires u == t.(bidPos := u.bidPos, declares := u.declares) && v == r.(shown := v.shown, last := v.last)
    ensures Auctioned(u, v) && Answered(u)
  {
    hide RoundFormed, SeatsDiffer, SeatOf, Auction.Run, Auction.Opening;
    if r.open {
      assert AuctionSoFar(v) == AuctionSoFar(r);
      assert WasTaken(v) <==> WasTaken(r);
    }
  }

  // the answers

  /** What an answer leaves as it is. */
  ghost predicate OnlyAuction(t: Table, u: Table)
  {
    && u.running == t.running && u.bided == t.bided && u.hands == t.hands && u.deck == t.deck
    && u.poker == t.poker && u.shower == t.shower && t.code <= u.code && u.turn != -1
  }

  lemma BidCodes(t: Table, isBid: bool)
    requires Formed(t) && t.running && t.landlord == NOBODY && t.turn != -1
    ensures var u := BidOn(t, isBid);
      && OnlyAuction(t, u)
      && if u.tasks == t.tasks then u.code == t.code && u.landlord == NOBODY
         else
           && Alive(u)
           && LastTask(u) == if u.landlord == NOBODY then GameStart(u.code) else GameLandlord(u.landlord, u.code)
  {
    hide BidAnswer, SeatsDiffer, BidView;
    AnswerOutcome(t, isBid);
  }

  /** The event `e` takes the desk from `t` to `u` and its story from `r` to `v`. */
  ghost predicate Leads(t: Table, r: Round, e: Event, u: Table, v: Round)
  {
    Inv(t, r) && Counts(t, e) && Formed(u) && CodesRise(u) && u == Step(t, e) && v == Track(r, t, e)
  }

  lemma BidPhase(t: Table, r: Round, c: int, isBid: bool, u: Table, v: Round)
    requires Leads(t, r, Bid(c, isBid), u, v)
    ensures Phase(u, v) && CardsKept(u, v) && Lead(u, v)
  {
    BidCodes(t, isBid);
    hide BidOn, CodesRise, Ascent, IsDeck, AreHands, OnTable, Auctioned, Held;
  }

  lemma SeatBack(t: Table, p: int)
    requires Formed(t) && Full(t.seats) && -1 <= p < SEATS
    ensures SeatOf(t.seats, ClientAt(t, p)) == p
  {
  }

  /** The desk after an answer shows the auction after the answer. */
  lemma BidShows(t: Table, isBid: bool)
    requires Formed(t) && t.running && t.turn != -1 && Full(t.seats)
    ensures var s, u := BidAnswer(t, isBid), BidOn(t, isBid);
      BidView(u) == s.(outcome := Auction.Asking) && u.seats == t.seats && Declarer(u) == Declarer(t)
  {
    hide BidAnswer, SeatOf, ClientAt, RoundFormed, SeatsDiffer, Full;
    AnswerOutcome(t, isBid);
    SeatBack(t, BidAnswer(t, isBid).top);
  }

  lemma BidDecides(t: Table, isBid: bool)
    requires Formed(t) && t.running && t.landlord == NOBODY && t.turn != -1
    ensures var s, u := BidAnswer(t, isBid), BidOn(t, isBid);
      && (s.outcome.Landlord? ==> u.landlord != NOBODY && s.outcome.seat == SeatOf(u.seats, u.landlord))
      && (!s.outcome.Landlord? ==> u.landlord == NOBODY)
      && (s.outcome == Auction.Redeal ==> Alive(u) && LastTask(u) == GameStart(u.code))
      && (s.outcome == Auction.Asking ==> (Alive(u) <==> Alive(t)))
  {
    AnswerOutcome(t, isBid);
    var s := BidAnswer(t, isBid);
    if s.outcome.Landlord? { SeatBack(t, s.outcome.seat); }
    hide BidAnswer, SeatOf, SeatsDiffer, BidView;
  }

  lemma RunOn(s: Auction.Bidding, declarer: int, given: seq<bool>, isBid: bool)
    requires Auction.Proper(s)
    ensures Auction.Run(s, declarer, given + [isBid]) ==
            Auction.Answered(Auction.Run(s, declarer, given), isBid, declarer)
    ensures Auction.Bids(given + [isBid]) == Auction.Bids(given) + if isBid then 1 else 0
  {
    hide Auction.Answered;
    var more := given + [isBid];
    assert more[..|given|] == given && more[|given|] == isBid;
  }

  /** An answer that is taken keeps the auction in time, unless it is a pass while a new deal is due. */
  lemma AnswerInTime(p: int, declarer: int, given: seq<bool>, isBid: bool)
    requires Auction.IsSeat(p)
    requires (given == [] || Auction.Takes(Auction.Run(Auction.Opening(p), declarer, given[..|given| - 1])))
    ensures var s, more := Auction.Run(Auction.Opening(p), declarer, given), given + [isBid];
      var after := Auction.Run(Auction.Opening(p), declarer, more);
      && (s.outcome == Auction.Asking ==> |given| <= 3)
      && (s.outcome == Auction.Asking && after.outcome == Auction.Redeal ==> |more| == 3)
      && (s.outcome == Auction.Redeal ==> |given| >= 3 && (after.outcome.Landlord? <==> isBid)
                                          && (after.outcome == Auction.Redeal <==> !isBid))
      && (s.outcome == Auction.Asking && after.outcome == Auction.Asking ==> |more| <= 3)
      && after.outcome != Auction.Stalled
  {
    hide Auction.Answer, Auction.SeekFirst, Auction.SeekNext;
    var s := Auction.Run(Auction.Opening(p), declarer, given);
    Auction.AnsweredRun(p, declarer, given);
    RunOn(Auction.Opening(p), declarer, given, isBid);
    if Auction.Takes(s) { Auction.AnswerLeadsOn(s, p, |given|, Auction.Bids(given), isBid, declarer); }
  }

  /** The auction after an answer, as a run and as the desk shows it. */
  lemma AnswerShown(t: Table, r: Round, isBid: bool, v: Round)
    requires Formed(t) && t.running && t.turn != -1 && t.landlord == NOBODY && Auctioned(t, r) && r.open && r.clean
    requires v == r.(given := r.given + [isBid], bidder := v.bidder, latePass := v.latePass)
    ensures AuctionSoFar(v) == BidAnswer(t, isBid) && WasTaken(v) && WasTaken(r)
    ensures AuctionSoFar(r).outcome == (if Alive(t) then Auction.Redeal else Auction.Asking)
    ensures (r.latePass <==> |r.given| > 3) && r.declarer == Declarer(t) && -1 <= r.declarer < SEATS
  {
    hide Auction.Answer, Auction.Run, Auction.Opening, Auction.Bids, SeatOf;
    RunOn(Auction.Opening(r.openedAt), r.declarer, r.given, isBid);
    assert v.given[..|v.given| - 1] == r.given && v.(given := r.given, bidder := r.bidder, latePass := r.latePass) == r;
    assert AuctionSoFar(r).(outcome := Auction.Asking) == BidView(t);
  }

  /** What makes the desk show the auction. */
  lemma ShowsAuction(u: Table, v: Round, s: Auction.Bidding)
    requires Formed(u) && v.open && v.clean && Auction.IsSeat(v.openedAt) && -1 <= v.declarer < SEATS && WasTaken(v)
    requires s == AuctionSoFar(v) && BidView(u) == s.(outcome := Auction.Asking) && v.declarer == Declarer(u)
    requires u.landlord != NOBODY ==>
      s.outcome.Landlord? && s.outcome.seat == SeatOf(u.seats, u.landlord) && (v.latePass <==> |v.given| > 4)
    requires u.landlord == NOBODY ==>
      s.outcome == (if Alive(u) then Auction.Redeal else Auction.Asking) && (v.latePass <==> |v.given| > 3)
    ensures Auctioned(u, v)
  {
    hide AuctionSoFar, SeatOf, Alive, WasTaken;
  }

  lemma BidRun(t: Table, r: Round, isBid: bool, u: Table, v: Round)
    requires Formed(t) && t.running && t.turn != -1 && t.landlord == NOBODY && Auctioned(t, r) && r.open && r.clean
    requires u == BidOn(t, isBid) && Formed(u)
    requires v == r.(given := r.given + [isBid], bidder := v.bidder, latePass := r.latePass || (Alive(t) && !isBid))
    ensures Auctioned(u, v)
  {
    AnswerShown(t, r, isBid, v);
    BidShows(t, isBid);
    BidDecides(t, isBid);
    AnswerInTime(r.openedAt, r.declarer, r.given, isBid);
    hide Auction.Answer, BidOn, Auction.Run, Auction.Opening, Auction.Bids, SeatOf, WasTaken, BidAnswer, Alive, BidView,
      Declarer, Auctioned, RoundFormed, SeatsDiffer;
    ShowsAuction(u, v, BidAnswer(t, isBid));
  }

  lemma BidAuction(t: Table, r: Round, c: int, isBid: bool, u: Table, v: Round)
    requires Leads(t, r, Bid(c, isBid), u, v)
    ensures Auctioned(u, v)
  {
    hide CodesRise, Sound, Lead, CardsKept, Phase, Answered, BidAnswer, Auction.Run, Auction.Opening, Auction.Bids,
      WasTaken;
    if r.open && r.clean {
      BidRun(t, r, isBid, u, v);
    } else if r.open {
      AnswerOutcome(t, isBid);
      RunOn(Auction.Opening(r.openedAt), r.declarer, r.given, isBid);
    }
  }

  lemma PassSeats(t: Table)
    requires Formed(t) && t.turn != -1 && t.multiple == -1
    ensures var s := BidAnswer(t, false);
      if Auction.Next(t.turn) == t.first then
        s.outcome == (if Declarer(t) == -1 then Auction.Redeal else Auction.Landlord(Declarer(t)))
        && s.answers == t.answers[t.turn := -1] && s.turn == t.turn && s.first == t.first
      else
        s == BidView(t).(answers := t.answers[t.turn := -1], turn := Auction.Next(t.turn))
  {
  }

  lemma BidAnswered(t: Table, r: Round, c: int, isBid: bool, u: Table, v: Round)
    requires Leads(t, r, Bid(c, isBid), u, v)
    ensures Answered(u)
  {
    hide CodesRise, Sound, Lead, CardsKept, Phase, Auctioned, BidOn, BidAnswer, OnlyAuction;
    AnswerOutcome(t, isBid);
    BidShows(t, isBid);
    BidDecides(t, isBid);
    BidCodes(t, isBid);
    if !isBid && t.multiple == -1 {
      PassSeats(t);
      if Auction.Next(t.turn) != t.first {
        OneMorePassed(BidView(t), t.first, (t.turn - t.first + SEATS) % SEATS);
      }
    }
  }

  lemma OneMorePassed(s: Auction.Bidding, p: int, n: nat)
    requires Auction.IsSeat(p) && Auction.AllPassed(s, p, n) && Auction.Next(s.turn) != p
    ensures var turn := Auction.Next(s.turn);
      Auction.AllPassed(s.(answers := s.answers[s.turn := -1], turn := turn), p, (turn - p + SEATS) % SEATS)
  {
  }

  /** With a bid made, an answer moves the turn on or decides the landlord. */
  lemma LaterSeats(t: Table, r: Round, isBid: bool)
    requires Formed(t) && t.landlord == NOBODY && t.turn != -1 && GoesOn(t, r) && t.multiple != -1
    ensures var s := BidAnswer(t, isBid);
      && Auction.Proper(s) && s.first == t.first && s.answers == t.answers[t.turn := if isBid then 1 else -1]
      && (s.outcome == Auction.Asking || s.outcome.Landlord?)
      && (s.outcome == Auction.Asking ==> Auction.Distance(s) > Auction.Distance(BidView(t)))
      && (Auction.Distance(BidView(t)) == 2 ==> s.outcome.Landlord?)
  {
    hide Auction.Answer;
    Auction.AnswerProper(BidView(t), isBid, Declarer(t));
    Auction.LaterAnswer(BidView(t), isBid, Declarer(t));
  }

  lemma BidLeaves(t: Table, isBid: bool)
    requires Formed(t) && t.turn != -1
    ensures var u := BidOn(t, isBid); u.bidPos == t.bidPos && u.declares == t.declares && u.bided == t.bided
  {
    hide BidAnswer;
  }

  lemma FirstBidSeats(t: Table)
    requires Formed(t) && t.turn != -1 && t.multiple == -1
    ensures var s := BidAnswer(t, true);
      && s.first == Auction.Next(t.turn) && s.answers == t.answers[t.turn := 1]
      && Auction.Next(Auction.Next(s.first)) == t.turn && (s.outcome == Auction.Asking || s.outcome.Landlord?)
  {
    hide Auction.SeekFirst;
    Auction.SeekFirstIs(Auction.AfterFirstBid(BidView(t)), Auction.Next(t.turn));
  }

  lemma BidGoesOn(t: Table, r: Round, c: int, isBid: bool, u: Table, v: Round)
    requires Leads(t, r, Bid(c, isBid), u, v)
    ensures GoesOn(u, v)
  {
    hide CodesRise, Sound, Lead, CardsKept, Phase, Auctioned, BidOn, BidAnswer, OnlyAuction;
    AnswerOutcome(t, isBid);
    BidShows(t, isBid);
    BidDecides(t, isBid);
    BidCodes(t, isBid);
    BidLeaves(t, isBid);
    if t.multiple != -1 {
      LaterSeats(t, r, isBid);
    } else if isBid {
      FirstBidSeats(t);
    } else {
      PassSeats(t);
    }
  }

  lemma BidRemembered(t: Table, r: Round, c: int, isBid: bool, u: Table, v: Round)
    requires Leads(t, r, Bid(c, isBid), u, v)
    ensures Remembered(u, v)
  {
    hide CodesRise, Sound, Lead, CardsKept, Phase, Auctioned, Answered, GoesOn, BidAnswer, BidView, SeatsDiffer;
    AnswerOutcome(t, isBid);
    BidLeaves(t, isBid);
  }

  lemma BidKeeps(t: Table, r: Round, c: int, isBid: bool, u: Table, v: Round)
    requires Leads(t, r, Bid(c, isBid), u, v)
    ensures Inv(u, v)
  {
    BidPhase(t, r, c, isBid, u, v);
    BidAuction(t, r, c, isBid, u, v);
    BidAnswered(t, r, c, isBid, u, v);
    BidGoesOn(t, r, c, isBid, u, v);
    BidRemembered(t, r, c, isBid, u, v);
    BidCodes(t, isBid);
    hide BidOn, Remembered, Answered, GoesOn, Phase, CardsKept, Lead, Auctioned, AreHands, IsDeck, OnTable, CodesRise;
  }

  // the cards played

  lemma PassIs(t: Table, r: Round, c: int)
    requires Inv(t, r) && CanPass(t, c)
    ensures PassOn(t) == t.(turn := Auction.Next(t.turn),
                            poker := if t.seats[Auction.Next(t.turn)] == t.shower then ZeroHand else t.poker)
  {
    hide Lead, Auctioned, Sound, CodesRise;
    assert t.hands[t.turn] != [];
    assert t.hands[t.turn := t.hands[t.turn]] == t.hands;
  }

  lemma PassLead(t: Table, r: Round, c: int, u: Table, v: Round)
    requires Formed(t) && Formed(u) && t.running && Lead(t, r) && CanPass(t, c)
    requires u == t.(turn := Auction.Next(t.turn),
                     poker := if t.seats[Auction.Next(t.turn)] == t.shower then ZeroHand else t.poker)
    requires v == r.(trick := if u.poker == ZeroHand then [] else r.trick)
    ensures Lead(u, v)
  {
    assert Ascent([]);
    hide Ascent;
  }

  lemma PassKeeps(t: Table, r: Round, c: int, u: Table, v: Round)
    requires Leads(t, r, Play(c, [[PASS]]), u, v)
    ensures Inv(u, v)
  {
    PassIs(t, r, c);
    assert v.played == r.played;
    assert OnTable(ZeroHand);
    hide CodesRise, IsDeck, AreHands, OnTable, Held, PassOn, Lead;
    PassLead(t, r, c, u, v);
  }

  /** The hand shown is one that cards can form. */
  lemma ShownOnTable(t: Table, client: int, params: seq<seq<int>>)
    requires Formed(t) && Sound(t) && CanShow(t, client, params)
    ensures OnTable(Formation(Values(Named(params)))) && Formation(Values(Named(params))) != ZeroHand
  {
    var cards := Named(params);
    forall x | x in Values(cards)
      ensures LOWEST <= x <= BIG_JOKER
    {
      var i :| 0 <= i < |cards| && ValueList(cards)[i] == x;
      assert IsPoker(params[i]);
    }
    assert CardValues(Values(cards));
    var h := Formation(Values(cards));
    assert Matches(Values(cards), h);
  }

  lemma Climbs(trick: seq<Hand>, poker: Hand, h: Hand)
    requires Ascent(trick) && (trick == [] <==> poker == ZeroHand) && (trick != [] ==> trick[|trick| - 1] == poker)
    requires OnTable(h) && IsLarge(h, poker)
    ensures Ascent(trick + [h])
  {
  }

  lemma ShownHands(t: Table, r: Round, client: int, params: seq<seq<int>>)
    requires Inv(t, r) && CanShow(t, client, params)
    ensures var cards := Named(params);
      var hands := t.hands[t.turn := EraseCards(t.hands[t.turn], cards)];
      && AreHands(hands) && Held(hands) + multiset(Dropped(t.hands[t.turn], cards)) == Held(t.hands)
      && Dropped(t.hands[t.turn], cards) != []
  {
    hide CodesRise, Phase, CardsKept, Lead, Auctioned, Formation, IsLarge, Kept, Dropped, EraseCards, IsHand;
    var cards, hand := Named(params), t.hands[t.turn];
    ErasedCards(hand, cards);
    KeptAndDropped(hand, cards);
    KeptIsHand(hand, cards);
    HandChanges(t.hands, t.turn, Kept(hand, cards));
    assert cards[0] in cards && cards[0] in hand;
    assert cards[0] in Dropped(hand, cards);
  }

  lemma ShowIs(t: Table, r: Round, c: int, params: seq<seq<int>>)
    requires Inv(t, r) && CanShow(t, c, params)
    ensures var cards, h := Named(params), Formation(Values(Named(params)));
      var hands := t.hands[t.turn := EraseCards(t.hands[t.turn], cards)];
      var u := ShowCards(t, c, params);
      && Held(hands) + multiset(Dropped(t.hands[t.turn], cards)) == Held(t.hands)
      && Dropped(t.hands[t.turn], cards) != []
      && Sound(u) && OnTable(h) && h != ZeroHand && IsLarge(h, t.poker)
      && if hands[t.turn] == [] then !u.running
         else u == t.(turn := Auction.Next(t.turn), poker := h, shower := c, hands := hands, bombs := u.bombs)
  {
    ShownHands(t, r, c, params);
    ShownOnTable(t, c, params);
    hide CodesRise, Phase, CardsKept, Lead, Auctioned, Formation, IsLarge, EraseCards, IsDeck, OnTable, Held, AreHands;
    var cards, h := Named(params), Formation(Values(Named(params)));
    var hands := t.hands[t.turn := EraseCards(t.hands[t.turn], cards)];
    assert ShowCards(t, c, params).deck == t.deck;
    ResetHands();
  }

  lemma ResetHands()
    ensures AreHands([[], [], []]) && OnTable(ZeroHand)
  {
  }

  lemma ShowLead(t: Table, r: Round, c: int, h: Hand, u: Table, v: Round)
    requires Formed(t) && Formed(u) && t.running && Lead(t, r) && MayPlay(t, c)
    requires OnTable(h) && h != ZeroHand && IsLarge(h, t.poker)
    requires u == t.(turn := Auction.Next(t.turn), poker := h, shower := c, hands := u.hands, bombs := u.bombs)
    requires v == r.(trick := r.trick + [h], played := v.played, bombs := v.bombs) && v.played != []
    ensures Lead(u, v)
  {
    Climbs(r.trick, t.poker, h);
    hide Ascent, IsLarge, OnTable;
  }

  lemma ShowPhase(t: Table, r: Round, c: int, h: Hand, u: Table, v: Round)
    requires Formed(t) && Formed(u) && t.running && MayPlay(t, c) && Phase(t, r) && Auctioned(t, r)
    requires u == t.(turn := Auction.Next(t.turn), poker := h, shower := c, hands := u.hands, bombs := u.bombs)
    requires v == r.(trick := v.trick, played := v.played, bombs := v.bombs)
    ensures Phase(u, v) && Auctioned(u, v) && Answered(u) && r.dealt
  {
    hide SeatsDiffer;
    if r.open {
      assert AuctionSoFar(v) == AuctionSoFar(r);
      assert WasTaken(r) <==> WasTaken(v);
    }
  }

  lemma ShowCardsKept(t: Table, r: Round, hand: seq<Card>, gone: seq<Card>, u: Table, v: Round)
    requires Formed(t) && Formed(u) && CardsKept(t, r) && t.turn != -1 && r.dealt
    requires hand != [] && gone != [] && u.hands == t.hands[t.turn := hand] && u.deck == t.deck
    requires Held(u.hands) + multiset(gone) == Held(t.hands)
    requires v == r.(trick := v.trick, played := r.played + gone, bombs := v.bombs)
    ensures CardsKept(u, v)
  {
    hide Held;
    assert multiset(v.played) == multiset(r.played) + multiset(gone);
  }

  lemma BombsCounted(t: Table, c: int, params: seq<seq<int>>)
    requires Formed(t) && CanShow(t, c, params)
    ensures var u, h := ShowCards(t, c, params), Formation(Values(Named(params)));
      u.running ==> u.bombs == t.bombs + if h.kind == Bomb then 1 else 0
  {
    hide EraseCards, Formation, IsLarge, NamesCards, Values;
  }

  lemma ShowKeeps(t: Table, r: Round, c: int, params: seq<seq<int>>, u: Table, v: Round)
    requires Leads(t, r, Play(c, params), u, v) && params != [[PASS]]
    ensures Inv(u, v)
  {
    ShowIs(t, r, c, params);
    if u.running {
      hide CodesRise, Held, ShowCards, EraseCards, Dropped, CardsKept, Sound, Lead, IsLarge, OnTable, Formation,
        NamesCards, Phase, Auctioned, Answered;
      var h := Formation(Values(Named(params)));
      BombsCounted(t, c, params);
      ShowPhase(t, r, c, h, u, v);
      ShowLead(t, r, c, h, u, v);
      ShowCardsKept(t, r, u.hands[t.turn], Dropped(t.hands[t.turn], Named(params)), u, v);
    }
  }

  // the queued tasks

  lemma DealKeeps(t: Table, r: Round, i: nat, rand: nat -> nat, u: Table, v: Round)
    requires Leads(t, r, Fire(i, rand), u, v) && t.tasks[i].GameStart?
    ensures Inv(u, v)
  {
    hide CodesRise, AreHands, IsDeck, OnTable, Held, Ascent, Shuffled, Dealt, Auctioned;
    OnlyLastAlive(t, i);
    ShuffledDeck(t.deck, rand);
    DealtSeventeen(u.deck);
    assert Auctioned(u, v) by { NoAuction(u, v); }
  }

  lemma NoAuction(t: Table, r: Round)
    requires Formed(t) && !r.open
    ensures Auctioned(t, r)
  {
  }

  lemma ShuffledDeck(deck: seq<Card>, rand: nat -> nat)
    requires IsDeck(deck)
    ensures IsDeck(Shuffled(deck, rand, DECK_SIZE - 1))
  {
    ShuffleKeeps(deck, rand, DECK_SIZE - 1);
  }

  lemma OpenKeeps(t: Table, r: Round, i: nat, rand: nat -> nat, u: Table, v: Round)
    requires Leads(t, r, Fire(i, rand), u, v) && t.tasks[i].GameBid?
    ensures Inv(u, v)
  {
    hide CodesRise, AreHands, IsDeck, OnTable, Held, Ascent;
    OnlyLastAlive(t, i);
    RemovedTask(t, i);
  }

  lemma BottomCards(t: Table, r: Round, p: nat)
    requires Formed(t) && Sound(t) && CardsKept(t, r) && r.dealt && !r.bottomOut && p < SEATS
    ensures var hand := AddCards(t.hands[p], t.deck[DEALT_CARDS..]);
      && IsHand(hand) && |hand| == |t.hands[p]| + 3
      && multiset(hand) == multiset(t.hands[p]) + multiset(t.deck[DEALT_CARDS..])
  {
    var bottom := t.deck[DEALT_CARDS..];
    DeckCards(t.deck);
    HandChanges(t.hands, p, t.hands[p]);
    hide Held, IsHand, AddCards, Lead;
    forall c
      ensures multiset(t.hands[p])[c] + multiset(bottom)[c] <= 1
    {
      assert (Held(t.hands) + multiset(r.played) + multiset(bottom))[c] == multiset(DeskPokers())[c];
    }
    assert IsHand(t.hands[p]);
    AddedCards(t.hands[p], bottom);
  }

  lemma BottomKeeps(t: Table, r: Round, i: nat, rand: nat -> nat, u: Table, v: Round)
    requires Leads(t, r, Fire(i, rand), u, v) && t.tasks[i].GameLandlord?
    ensures Inv(u, v)
  {
    hide CodesRise, IsHand, IsDeck, OnTable, Held, Ascent, AddCards;
    OnlyLastAlive(t, i);
    RemovedTask(t, i);
    var p := SeatOf(t.seats, t.landlord);
    BottomCards(t, r, p);
    HandChanges(t.hands, p, AddCards(t.hands[p], t.deck[DEALT_CARDS..]));
    LandlordAlone(t);
    BottomKept(t, r, p, AddCards(t.hands[p], t.deck[DEALT_CARDS..]), u, v);
  }

  lemma LandlordAlone(t: Table)
    requires Formed(t) && Seated(t, t.landlord)
    ensures forall q :: 0 <= q < SEATS ==> (t.seats[q] == t.landlord <==> q == SeatOf(t.seats, t.landlord))
  {
  }

  lemma BottomKept(t: Table, r: Round, p: nat, hand: seq<Card>, u: Table, v: Round)
    requires Formed(t) && CardsKept(t, r) && r.dealt && !r.bottomOut && p < SEATS
    requires |u.hands| == SEATS && |u.deck| == DECK_SIZE && u.hands == t.hands[p := hand]
    requires |u.seats| == SEATS && forall q :: 0 <= q < SEATS ==> (u.seats[q] == u.landlord <==> q == p)
    requires multiset(hand) == multiset(t.hands[p]) + multiset(t.deck[DEALT_CARDS..]) && |hand| == |t.hands[p]| + 3
    requires Held(u.hands) + multiset(t.hands[p]) == Held(t.hands) + multiset(hand)
    requires v == r.(bottomOut := true)
    ensures CardsKept(u, v)
  {
    hide Held;
    Cancel(Held(u.hands), multiset(t.hands[p]), Held(t.hands), multiset(t.deck[DEALT_CARDS..]));
  }

  lemma Cancel(a: multiset<Card>, h: multiset<Card>, b: multiset<Card>, k: multiset<Card>)
    requires a + h == b + (h + k)
    ensures a == b + k
  {
    forall c
      ensures a[c] == (b + k)[c]
    {
      assert (a + h)[c] == (b + (h + k))[c];
    }
  }

  lemma StaleKeeps(t: Table, r: Round, i: nat)
    requires Inv(t, r) && i < |t.tasks| && !Effective(t, t.tasks[i])
    ensures Inv(Removed(t, i), r)
  {
    hide CodesRise, AreHands, IsDeck, OnTable, Held, Ascent, Auctioned, Answered;
    RemovedRises(t, i);
    RemovedTask(t, i);
    if t.tasks[i].code == t.code { OnlyLastAlive(t, i); }
    if t.running { SameAuction(t, r, Removed(t, i)); }
  }

  lemma SameAuction(t: Table, r: Round, u: Table)
    requires Formed(t) && Formed(u) && Auctioned(t, r) && Answered(t)
    requires u == t.(tasks := u.tasks) && (Alive(u) <==> Alive(t)) && (Alive(t) ==> LastTask(u) == LastTask(t))
    ensures Auctioned(u, r) && Answered(u)
  {
    hide WasTaken, AuctionSoFar;
  }

  /** Whatever happens next, the invariants are kept. */
  lemma StepKeeps(t: Table, r: Round, e: Event)
    requires Inv(t, r)
    ensures Inv(Step(t, e), Track(r, t, e))
  {
    hide BidOn, PassOn, ShowCards, Call, CanBid, TakesPlay, CanDeclare, Effective, Phase, CardsKept, Lead,
      Auctioned, CodesRise, AreHands, IsDeck, OnTable;
    StepFormed(t, e);
    CodesKept(t, e);
    var u, v := Step(t, e), Track(r, t, e);
    match e {
      case Begin => if Counts(t, e) { BeginKeeps(t, r); }
      case Declare(c) => if Counts(t, e) { DeclareKeeps(t, r, c); }
      case Bid(c, isBid) => if Counts(t, e) { BidKeeps(t, r, c, isBid, u, v); }
      case Play(c, params) =>
        if Counts(t, e) {
          if params == [[PASS]] { PassKeeps(t, r, c, u, v); } else { ShowKeeps(t, r, c, params, u, v); }
        }
      case Fire(i, rand) =>
        if Counts(t, e) {
          match t.tasks[i] {
            case GameStart(_) => DealKeeps(t, r, i, rand, u, v);
            case GameBid(_) => OpenKeeps(t, r, i, rand, u, v);
            case GameLandlord(_, _) => BottomKeeps(t, r, i, rand, u, v);
          }
        } else if 0 <= i < |t.tasks| {
          StaleKeeps(t, r, i);
        }
      case Leave(c, closing) => ResetSound(t);
      case Sit(_, _) =>
    }
  }
}
