// One desk of the game as a state machine: what each command and each delayed
// task does to it, as a function of the state.

module DdzTable {
  import opened PokerInfo
  import opened Cards
  import opened Patterns
  import opened BeatsOrder
  import opened Deck
  import Auction

  /** Clients are numbers from 0; nobody is -1. */
  const NOBODY := -1

  /** The character '0', which as the only parameter of a card command passes. */
  const PASS := 48

  /** A delayed call, with the generation code it was queued under. */
  datatype Task =
    | GameStart(code: int)
    | GameBid(code: int)
    | GameLandlord(landlord: int, code: int)

  datatype Table = Table(
    running: bool,
    shower: int,
    landlord: int,
    topBidder: int,
    seats: seq<int>,
    poker: Hand,
    bombs: int,
    declares: int,
    bided: bool,
    turn: int,
    first: int,
    deck: seq<Card>,
    hands: seq<seq<Card>>,
    bidPos: int,
    multiple: int,
    answers: seq<int>,
    code: int,
    tasks: seq<Task>)

  /** What happens at a desk. */
  datatype Event =
    | Sit(seat: int, client: int)
    | Leave(client: int, closing: bool)
    | Begin                                          // the third client got ready
    | Declare(client: int)
    | Bid(client: int, isBid: bool)
    | Play(client: int, params: seq<seq<int>>)
    | Fire(index: int, rand: nat -> nat)             // a queued task is called, with these random numbers

  // ------------------------------------------------------------------------- seats

  predicate SeatsDiffer(seats: seq<int>)
  {
    && |seats| == SEATS
    && (seats[0] != NOBODY ==> seats[0] != seats[1] && seats[0] != seats[2])
    && (seats[1] != NOBODY ==> seats[1] != seats[2])
  }

  predicate Full(seats: seq<int>)
    requires |seats| == SEATS
  {
    seats[0] != NOBODY && seats[1] != NOBODY && seats[2] != NOBODY
  }

  /** The seat of a client, or -1. */
  function SeatOf(seats: seq<int>, client: int): (p: int)
    requires |seats| == SEATS
    ensures -1 <= p < SEATS
    ensures p != -1 ==> client != NOBODY && seats[p] == client
    ensures p == -1 ==> client == NOBODY || client !in seats
  {
    if client == NOBODY then -1
    else if seats[0] == client then 0
    else if seats[1] == client then 1
    else if seats[2] == client then 2
    else -1
  }

  predicate Seated(t: Table, client: int)
    requires |t.seats| == SEATS
  {
    SeatOf(t.seats, client) != -1
  }

  /** The lengths and ranges that every operation relies on. */
  predicate Formed(t: Table)
  {
    && |t.seats| == SEATS && SeatsDiffer(t.seats) && |t.hands| == SEATS && |t.answers| == SEATS && |t.deck| == DECK_SIZE
    && -1 <= t.turn < SEATS && -1 <= t.first < SEATS && -1 <= t.bidPos < SEATS
    && (t.turn == -1 <==> t.first == -1)
    && t.multiple >= -1 && t.declares >= 0 && (t.declares > 0 ==> t.bidPos >= 0)
    && (t.running ==> RoundFormed(t))
  }

  /** In a running round the seats are taken and the clients it speaks of sit in them. */
  predicate RoundFormed(t: Table)
    requires |t.seats| == SEATS
  {
    && Full(t.seats)
    && (t.topBidder == NOBODY <==> t.multiple == -1)
    && (t.topBidder == NOBODY || Seated(t, t.topBidder))
    && (t.landlord == NOBODY || Seated(t, t.landlord))
    && (t.shower == NOBODY || Seated(t, t.shower))
  }

  function Current(t: Table): int
    requires |t.seats| == SEATS && -1 <= t.turn < SEATS
  {
    if t.turn == -1 then NOBODY else t.seats[t.turn]
  }

  // ------------------------------------------------------------------------- reset

  function Cleared(t: Table): Table
  {
    t.(hands := [[], [], []], answers := [0, 0, 0])
  }

  /** The desk as it is between rounds; the seat that bid first, the code and the deck stay. */
  function Reset(t: Table): Table
  {
    Cleared(t.(running := false, landlord := NOBODY, topBidder := NOBODY, multiple := -1, bombs := 0, declares := 0,
               turn := -1, first := -1, poker := ZeroHand, shower := NOBODY, bided := false))
  }

  /** A task is queued under a new code. */
  function Queued(t: Table, task: Task): Table
  {
    t.(code := task.code, tasks := t.tasks + [task])
  }

  // ------------------------------------------------------------------- the commands

  predicate CanSit(t: Table, seat: int, client: int)
    requires |t.seats| == SEATS
  {
    !t.running && 0 <= seat < SEATS && t.seats[seat] == NOBODY && client != NOBODY && !Seated(t, client)
  }

  predicate CanBegin(t: Table)
    requires |t.seats| == SEATS
  {
    !t.running && Full(t.seats)
  }

  function BeginRound(t: Table): Table
  {
    Queued(Reset(t).(running := true), GameStart(t.code + 1))
  }

  function LeaveDesk(t: Table, client: int, closing: bool): Table
    requires |t.seats| == SEATS && Seated(t, client)
  {
    var left := t.(seats := t.seats[SeatOf(t.seats, client) := NOBODY]);
    if !t.running then left
    else if closing then left.(running := false)
    else Reset(left)
  }

  /** Before the auction anyone may show its cards; after it only the landlord, before its first play. */
  predicate CanDeclare(t: Table, client: int)
    requires Formed(t)
  {
    && t.running && Seated(t, client)
    && if t.bided then
         && t.landlord == client && Current(t) == client && t.multiple != -1
         && |t.hands[SeatOf(t.seats, client)]| == 20
       else
         t.multiple == -1
  }

  function DeclareCards(t: Table, client: int): Table
    requires Formed(t) && CanDeclare(t, client)
  {
    t.(bidPos := if t.declares == 0 then SeatOf(t.seats, client) else t.bidPos, declares := t.declares + 1)
  }

  predicate CanBid(t: Table, client: int)
    requires Formed(t)
  {
    t.running && t.landlord == NOBODY && client != NOBODY && Current(t) == client
  }

  /** The auction as it stands, while it asks for an answer. */
  function BidView(t: Table): Auction.Bidding
    requires |t.seats| == SEATS
  {
    Auction.Bidding(t.turn, t.first, t.answers, t.multiple, SeatOf(t.seats, t.topBidder), Auction.Asking)
  }

  /** The seat that first showed its cards, or -1. */
  function Declarer(t: Table): int
  {
    if t.declares == 0 then -1 else t.bidPos
  }

  function BidAnswer(t: Table, isBid: bool): Auction.Bidding
    requires Formed(t) && t.turn != -1
  {
    Auction.Answer(BidView(t), isBid, Declarer(t))
  }

  /** The client in a seat of the auction; the loops leave it with the seats 0 to 2, or -1 for nobody. */
  function ClientAt(t: Table, p: int): int
    requires |t.seats| == SEATS
  {
    if 0 <= p < SEATS then t.seats[p] else NOBODY
  }

  /** The desk with what the auction has come to; a decision is queued under a new code. */
  function Settled(t: Table, s: Auction.Bidding): Table
    requires |t.seats| == SEATS
  {
    var u := t.(turn := s.turn, first := s.first, answers := s.answers, multiple := s.multiple,
                topBidder := ClientAt(t, s.top));
    match s.outcome
    case Asking => u
    case Stalled => u
    case Redeal => Queued(u, GameStart(t.code + 1))
    case Landlord(p) =>
      var lord := ClientAt(t, p);
      Queued(u.(landlord := lord), GameLandlord(lord, t.code + 1))
  }

  function BidOn(t: Table, isBid: bool): Table
    requires Formed(t) && t.turn != -1
  {
    Settled(t, BidAnswer(t, isBid))
  }

  // ------------------------------------------------------------------------ playing

  /** Each parameter of the command names a card of the hand. */
  predicate NamesCards(params: seq<seq<int>>, hand: seq<Card>)
  {
    forall i :: 0 <= i < |params| ==> IsPoker(params[i]) && Card(params[i][0], params[i][1]) in hand
  }

  function Named(params: seq<seq<int>>): (cards: seq<Card>)
    requires forall i :: 0 <= i < |params| ==> |params[i]| == 2
    ensures |cards| == |params|
  {
    seq(|params|, i requires 0 <= i < |params| => Card(params[i][0], params[i][1]))
  }

  /** The hand that some card values form, or an error. */
  ghost function Formation(m: multiset<int>): (h: Hand)
    ensures h.kind != Err ==> Matches(m, h)
  {
    if exists h: Hand :: Matches(m, h) then
      var h: Hand :| Matches(m, h); h
    else
      Hand(Err, ZERO_VALUE, 0)
  }

  predicate MayPlay(t: Table, client: int)
    requires Formed(t)
  {
    t.running && t.landlord != NOBODY && client != NOBODY && Current(t) == client
  }

  predicate CanPass(t: Table, client: int)
    requires Formed(t)
  {
    MayPlay(t, client) && t.shower != NOBODY && t.shower != client
  }

  ghost predicate CanShow(t: Table, client: int, params: seq<seq<int>>)
    requires Formed(t)
  {
    && MayPlay(t, client) && params != []
    && NamesCards(params, t.hands[t.turn])
    && Formation(Values(Named(params))).kind != Err
    && IsLarge(Formation(Values(Named(params))), t.poker)
  }

  /** The cards leave the hand; with the last card the round ends. */
  function ShowPoker(t: Table, cards: seq<Card>): Table
    requires Formed(t) && t.turn != -1
  {
    var rest := EraseCards(t.hands[t.turn], cards);
    var u := t.(hands := t.hands[t.turn := rest]);
    if rest == [] then Reset(u) else u.(turn := Auction.Next(t.turn))
  }

  /** With the pass of the seat before it, the last to have shown cards has the lead. */
  function PassOn(t: Table): Table
    requires Formed(t) && t.turn != -1
  {
    ShowPoker(if t.seats[Auction.Next(t.turn)] == t.shower then t.(poker := ZeroHand) else t, [])
  }

  ghost function ShowCards(t: Table, client: int, params: seq<seq<int>>): Table
    requires Formed(t) && CanShow(t, client, params)
  {
    var h := Formation(Values(Named(params)));
    ShowPoker(t.(poker := h, shower := client, bombs := if h.kind == Bomb then t.bombs + 1 else t.bombs), Named(params))
  }

  /** Whether the card command is taken. */
  ghost predicate TakesPlay(t: Table, client: int, params: seq<seq<int>>)
    requires Formed(t)
  {
    if params == [[PASS]] then CanPass(t, client) else CanShow(t, client, params)
  }

  // -------------------------------------------------------------------- queued tasks

  /** Whether a task called now does anything. */
  predicate Effective(t: Table, task: Task)
    requires Formed(t)
  {
    && task.code == t.code && t.running
    && match task
       case GameLandlord(lord, _) => t.landlord != NOBODY && t.landlord == lord && Seated(t, lord)
       case _ => Full(t.seats)
  }

  function Deal(t: Table, rand: nat -> nat): Table
    requires |t.deck| == DECK_SIZE
  {
    var deck := Shuffled(t.deck, rand, DECK_SIZE - 1);
    Queued(Cleared(t).(deck := deck, hands := Dealt(deck, DEALT_CARDS)), GameBid(t.code + 1))
  }

  /** The auction opens with the seat after the last one that opened, or with the first to have shown its cards. */
  function OpenAuction(t: Table): Table
    requires Formed(t)
  {
    var p := if t.declares == 0 then (t.bidPos + 1) % SEATS else t.bidPos;
    t.(bidPos := p, turn := p, first := p, bided := true)
  }

  function GiveBottom(t: Table, lord: int): Table
    requires Formed(t) && Seated(t, lord)
  {
    var p := SeatOf(t.seats, lord);
    t.(turn := p, first := p, hands := t.hands[p := AddCards(t.hands[p], t.deck[DEALT_CARDS..])])
  }

  function Removed(t: Table, index: int): Table
    requires 0 <= index < |t.tasks|
  {
    t.(tasks := t.tasks[..index] + t.tasks[index + 1..])
  }

  function Call(t: Table, task: Task, rand: nat -> nat): Table
    requires Formed(t) && Effective(t, task)
  {
    match task
    case GameStart(_) => Deal(t, rand)
    case GameBid(_) => OpenAuction(t)
    case GameLandlord(lord, _) => GiveBottom(t, lord)
  }

  // ----------------------------------------------------------------------- one step

  /** Whether the event changes anything but the queue. */
  ghost predicate Counts(t: Table, e: Event)
    requires Formed(t)
  {
    match e
    case Sit(seat, c) => CanSit(t, seat, c)
    case Leave(c, _) => Seated(t, c)
    case Begin => CanBegin(t)
    case Declare(c) => CanDeclare(t, c)
    case Bid(c, _) => CanBid(t, c)
    case Play(c, params) => TakesPlay(t, c, params)
    case Fire(i, _) => 0 <= i < |t.tasks| && Effective(t, t.tasks[i])
  }

  ghost function Step(t: Table, e: Event): Table
    requires Formed(t)
  {
    match e
    case Sit(seat, c) => if CanSit(t, seat, c) then t.(seats := t.seats[seat := c]) else t
    case Leave(c, closing) => if Seated(t, c) then LeaveDesk(t, c, closing) else t
    case Begin => if CanBegin(t) then BeginRound(t) else t
    case Declare(c) => if CanDeclare(t, c) then DeclareCards(t, c) else t
    case Bid(c, isBid) => if CanBid(t, c) then BidOn(t, isBid) else t
    case Play(c, params) =>
      if !TakesPlay(t, c, params) then t
      else if params == [[PASS]] then PassOn(t)
      else ShowCards(t, c, params)
    case Fire(i, rand) =>
      if !(0 <= i < |t.tasks|) then t
      else if !Effective(t, t.tasks[i]) then Removed(t, i)
      else Call(Removed(t, i), t.tasks[i], rand)
  }

  lemma AnswerOutcome(t: Table, isBid: bool)
    requires Formed(t) && t.running && t.turn != -1
    ensures var s := BidAnswer(t, isBid);
      && Auction.Proper(s)
      && s.multiple >= t.multiple && (s.multiple != -1 ==> Auction.IsSeat(s.top)) && (s.multiple == -1 ==> s.top == -1)
      && (s.outcome.Landlord? ==> Auction.IsSeat(s.outcome.seat))
      && (s.outcome.Landlord? ==> s.outcome.seat == s.top || s.outcome.seat == t.bidPos)
      && (isBid ==> s.multiple == t.multiple + 1 && s.top == t.turn)
      && (!isBid ==> s.multiple == t.multiple && s.top == SeatOf(t.seats, t.topBidder))
  {
    hide Auction.SeekFirst, Auction.SeekNext;
    var s := BidView(t);
    var answered := s.(answers := s.answers[s.turn := if isBid then 1 else -1]);
    if t.multiple != -1 {
      Auction.SeekNextIs(if isBid then answered.(multiple := s.multiple + 1, top := s.turn) else answered);
    } else if isBid {
      var start := Auction.Next(s.turn);
      Auction.SeekFirstIs(answered.(multiple := 0, top := s.turn, turn := start, first := start), start);
    }
  }

  lemma BidFormed(t: Table, isBid: bool)
    requires Formed(t) && t.running && t.landlord == NOBODY && t.turn != -1
    ensures Formed(BidOn(t, isBid))
  {
    hide BidAnswer, BidView;
    AnswerOutcome(t, isBid);
  }

  lemma ShowFormed(t: Table, cards: seq<Card>)
    requires Formed(t) && t.turn != -1
    ensures Formed(ShowPoker(t, cards))
  {
    hide EraseCards;
  }

  lemma PlayFormed(t: Table, client: int, params: seq<seq<int>>)
    requires Formed(t) && TakesPlay(t, client, params)
    ensures Formed(Step(t, Play(client, params)))
  {
    hide IsLarge, Formation, Values, ShowPoker;
    if params == [[PASS]] {
      ShowFormed(if t.seats[Auction.Next(t.turn)] == t.shower then t.(poker := ZeroHand) else t, []);
    } else {
      var h := Formation(Values(Named(params)));
      var bombs := if h.kind == Bomb then t.bombs + 1 else t.bombs;
      ShowFormed(t.(poker := h, shower := client, bombs := bombs), Named(params));
    }
  }

  lemma CallFormed(t: Table, i: nat, rand: nat -> nat)
    requires Formed(t) && i < |t.tasks| && Effective(t, t.tasks[i])
    ensures Formed(Step(t, Fire(i, rand)))
  {
    hide Shuffled, Dealt, AddCards;
  }

  /** Every step keeps the lengths and ranges. */
  lemma StepFormed(t: Table, e: Event)
    requires Formed(t)
    ensures Formed(Step(t, e))
  {
    if Counts(t, e) {
      hide BidOn, PassOn, ShowCards, Call;
      match e {
        case Bid(c, isBid) => BidFormed(t, isBid);
        case Play(c, params) => PlayFormed(t, c, params);
        case Fire(i, rand) => CallFormed(t, i, rand);
        case _ =>
      }
    }
  }

  /** A desk as it is made. */
  function NewTable(): (t: Table)
    ensures Formed(t)
  {
    Table(false, NOBODY, NOBODY, NOBODY, [NOBODY, NOBODY, NOBODY], ZeroHand, 0, 0, false, -1, -1,
          DeskPokers(), [[], [], []], -1, -1, [0, 0, 0], 0, [])
  }
}
