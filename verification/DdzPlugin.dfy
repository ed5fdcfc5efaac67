// The handlers of the game: what the commands of the clients and the queued
// tasks do to the desks, each proved to be a step of a desk's state machine.

module DdzPlugin {
  import opened PokerInfo
  import opened Cards
  import opened Patterns
  import opened BeatsOrder
  import opened Deck
  import opened DdzTable
  import opened DdzDesk
  import opened DdzSeating
  import DdzBidding
  import DdzRound
  import DdzRuns
  import BigFinder
  import PokerParser
  import Auction

  /** The character '1', which as the only parameter of a bid command bids. */
  const ONE := 49

  /** The infos with the ready flags of some clients taken back. */
  function Unready(infos: map<int, ClientInfo>, seats: seq<int>): map<int, ClientInfo>
  {
    map c | c in infos :: if c in seats then infos[c].(ready := false) else infos[c]
  }

  /** The infos with both flags of some clients taken back. */
  function FlagsReset(infos: map<int, ClientInfo>, seats: seq<int>): map<int, ClientInfo>
  {
    map c | c in infos :: if c in seats then ClientInfo(infos[c].desk, false, false) else infos[c]
  }

  /** Of the clients of the desk `k` the flags are taken back, only the ready flag or both; all else stays. */
  predicate TakenBack(before: map<int, ClientInfo>, after: map<int, ClientInfo>, k: nat, both: bool)
  {
    && after.Keys == before.Keys
    && forall c :: c in before ==>
         after[c] == if before[c].desk != k then before[c]
                     else ClientInfo(k, false, if both then false else before[c].declared)
  }

  /** The clients in the seats of a desk are those that have it. */
  lemma FlagsOfDesk(all: seq<seq<int>>, infos: map<int, ClientInfo>, k: nat)
    requires Seating(all, infos) && k < |all|
    ensures TakenBack(infos, Unready(infos, all[k]), k, false)
    ensures TakenBack(infos, FlagsReset(infos, all[k]), k, true)
  {
    forall c | c in infos
      ensures infos[c].desk == k <==> c in all[k]
    {
      OneSeat(all, infos, c, k);
    }
  }

  /** The clients in the seats are known. */
  predicate Known(infos: map<int, ClientInfo>, seats: seq<int>)
  {
    forall p :: 0 <= p < |seats| ==> seats[p] == NOBODY || seats[p] in infos
  }

  predicate AllReady(infos: map<int, ClientInfo>, seats: seq<int>)
  {
    forall p :: 0 <= p < |seats| ==> seats[p] in infos && infos[seats[p]].ready
  }

  ghost predicate StepTo(t: Table, e: Event, u: Table)
  {
    Formed(t) && u == Step(t, e)
  }

  // --------------------------------------------------------------------------- cards

  /** The set without the card that a parameter names. */
  function EraseText(hand: seq<Card>, text: seq<int>): seq<Card>
  {
    if |text| == 2 then Erase(hand, Card(text[0], text[1])) else hand
  }

  lemma FormationFound(m: multiset<int>, g: Hand)
    requires PokerParser.Classifies(m, g)
    ensures g.kind == Err <==> Formation(m).kind == Err
    ensures g.kind != Err ==> Formation(m) == g
  {
    if g.kind != Err { DdzRuns.FormationIs(m, g); }
  }

  /** The slots that the source has for the values it notes; here there are as many as parameters. */
  const VALUE_SLOTS := 21

  /**
   * Looks up each parameter in the hand and notes the values, up to the first that names no card of the hand.
   * More than the slots of the source are written exactly if the parameters up to there all name cards.
   */
  method LookUp(params: seq<seq<int>>, hand: seq<Card>) returns (found: bool, chars: array<int>, written: nat)
    ensures found <==> NamesCards(params, hand)
    ensures found ==> chars[..] == ValueList(Named(params)) && PokerParser.NoZero(chars[..])
    ensures fresh(chars)
    ensures written > VALUE_SLOTS <==> |params| > VALUE_SLOTS && NamesCards(params[..VALUE_SLOTS + 1], hand)
  {
    chars := new int[|params|];
    written := 0;
    while written < |params|
      invariant 0 <= written <= |params|
      invariant NamesCards(params[..written], hand)
      invariant forall k :: 0 <= k < written ==> chars[k] == params[k][0]
    {
      if !IsPoker(params[written]) {
        return false, chars, written;
      }
      if Card(params[written][0], params[written][1]) !in hand {
        return false, chars, written;
      }
      chars[written] := params[written][0];
      written := written + 1;
    }
    found := true;
    assert params[..written] == params;
  }

  /** The hand that the parameters form, if they name cards of the hand that beat `onTable`. */
  method CheckCards(params: seq<seq<int>>, hand: seq<Card>, onTable: Hand) returns (taken: bool, pokerInfo: Hand)
    ensures taken ==> NamesCards(params, hand) && forall i :: 0 <= i < |params| ==> |params[i]| == 2
    ensures taken ==> pokerInfo == Formation(Values(Named(params))) && pokerInfo.kind != Err
    ensures taken ==> IsLarge(pokerInfo, onTable)
    ensures !taken && NamesCards(params, hand) && Formation(Values(Named(params))).kind != Err ==>
      !IsLarge(Formation(Values(Named(params))), onTable)
  {
    hide PokerParser.Classifies, IsLarge;
    var allFound, pokerChars, _ := LookUp(params, hand);
    if !allFound {
      return false, ZeroHand;
    }
    var pi := new PokerInfo();
    assert pokerChars[..pokerChars.Length] == pokerChars[..];
    PokerParser.Parse(pokerChars, pokerChars.Length, pi);
    pokerInfo := pi.View();
    FormationFound(Values(Named(params)), pokerInfo);
    taken := pokerInfo.kind != Err && IsLarge(pokerInfo, onTable);
  }

  class DdzPlugin {
    const desks: seq<Desk>
    var infos: map<int, ClientInfo>

    /** What has happened at each desk. */
    ghost var logs: seq<seq<Event>>

    ghost function Decks(): set<object>
    {
      set d <- desks :: d.deskPokers
    }

    ghost predicate Apart()
    {
      forall i, j :: 0 <= i < j < |desks| ==> desks[i] != desks[j] && desks[i].deskPokers != desks[j].deskPokers
    }

    /** The seats of all desks. */
    ghost function AllSeats(): (all: seq<seq<int>>)
      reads desks
      ensures |all| == |desks| && forall i :: 0 <= i < |desks| ==> all[i] == desks[i].clients
    {
      seq(|desks|, i requires 0 <= i < |desks| reads desks => desks[i].clients)
    }

    ghost function Tables(): (tables: seq<Table>)
      reads desks, Decks()
      ensures |tables| == |desks| && forall i :: 0 <= i < |desks| ==> tables[i] == desks[i].View()
    {
      seq(|desks|, i requires 0 <= i < |desks| reads desks, Decks() => desks[i].View())
    }

    ghost predicate Valid()
      reads this, desks, Decks()
    {
      && Apart() && Seating(AllSeats(), infos) && |logs| == |desks|
      && forall i :: 0 <= i < |desks| ==> desks[i].Ok() && DdzRuns.ComesTo(logs[i], desks[i].View())
    }

    /** The desk `k` takes a step and the others stay. */
    twostate predicate Steps(k: int, e: Event)
      reads this, desks, Decks()
    {
      forall i :: 0 <= i < |desks| ==>
        if i == k then StepTo(old(desks[i].View()), e, desks[i].View()) else desks[i].View() == old(desks[i].View())
    }

    twostate predicate NothingHappens()
      reads this, desks, Decks()
    {
      infos == old(infos) && forall i :: 0 <= i < |desks| ==> desks[i].View() == old(desks[i].View())
    }

    constructor (deskCount: nat)
      ensures Valid() && infos == map[] && |desks| == deskCount
      ensures forall i :: 0 <= i < |desks| ==> desks[i].View() == NewTable()
    {
      hide NewTable;
      var list: seq<Desk> := [];
      while |list| < deskCount
        invariant |list| <= deskCount
        invariant forall i :: 0 <= i < |list| ==> fresh(list[i]) && fresh(list[i].deskPokers)
        invariant forall i :: 0 <= i < |list| ==> list[i].View() == NewTable()
        invariant forall i, j :: 0 <= i < j < |list| ==> list[i] != list[j] && list[i].deskPokers != list[j].deskPokers
      {
        var desk := new Desk();
        list := list + [desk];
      }
      desks, infos, logs := list, map[], seq(|list|, i => []);
      new;
      NewDesks();
    }

    lemma NewDesks()
      requires Apart() && infos == map[] && logs == seq(|desks|, i => [])
      requires forall i :: 0 <= i < |desks| ==> desks[i].View() == NewTable()
      ensures Valid()
    {
      hide DdzRuns.ComesTo;
      DdzRuns.NothingYet();
      forall i | 0 <= i < |desks| ensures desks[i].Ok() && desks[i].clients == [NOBODY, NOBODY, NOBODY]
      {
        assert desks[i].View().seats == NewTable().seats;
      }
    }

    // ------------------------------------------------------------ desk by desk

    /** The clients of a desk are no longer ready. */
    method TakeReadyBack(desk: Desk)
      requires |desk.clients| == SEATS && Full(desk.clients) && Known(infos, desk.clients)
      modifies this`infos
      ensures infos == Unready(old(infos), desk.clients)
    {
      ghost var was := infos;
      var currIndex := 0;
      while currIndex < SEATS
        invariant 0 <= currIndex <= SEATS && infos == Unready(was, desk.clients[..currIndex])
      {
        infos := infos[desk.clients[currIndex] := infos[desk.clients[currIndex]].(ready := false)];
        assert desk.clients[..currIndex + 1] == desk.clients[..currIndex] + [desk.clients[currIndex]];
        currIndex := currIndex + 1;
      }
      assert desk.clients[..SEATS] == desk.clients;
    }

    /** The end of a round: after a normal one nobody is ready. */
    method OnGameStop(desk: Desk, normal: bool)
      requires |desk.clients| == |desk.posPokers| == |desk.bidInfo| == SEATS
      requires normal ==> Known(infos, desk.clients) && Full(desk.clients)
      modifies this`infos, desk
      ensures desk.View() == DdzTable.Reset(old(desk.View()))
      ensures infos == if normal then Unready(old(infos), desk.clients) else old(infos)
    {
      if normal {
        TakeReadyBack(desk);
      }
      desk.Reset();
    }

    /** The cards of a command are erased one after another. */
    method EraseEach(desk: Desk, posIndex: nat, params: seq<seq<int>>, ghost cards: seq<Card>)
      requires |desk.posPokers| == SEATS && posIndex < SEATS
      requires params == [[PASS]] || forall i :: 0 <= i < |params| ==> |params[i]| == 2
      requires cards == if params == [[PASS]] then [] else Named(params)
      modifies desk`posPokers
      ensures desk.posPokers == old(desk.posPokers)[posIndex := EraseCards(old(desk.posPokers)[posIndex], cards)]
    {
      hide EraseCards, Erase;
      ghost var hand := desk.posPokers[posIndex];
      NothingErased(hand);
      var i := 0;
      while i < |params|
        invariant 0 <= i <= |params| && |desk.posPokers| == SEATS
        invariant desk.posPokers == old(desk.posPokers)[posIndex := desk.posPokers[posIndex]]
        invariant desk.posPokers[posIndex] == EraseCards(hand, if params == [[PASS]] then [] else cards[..i])
      {
        if params != [[PASS]] { ErasedNext(hand, cards, i); }
        desk.posPokers := desk.posPokers[posIndex := EraseText(desk.posPokers[posIndex], params[i])];
        i := i + 1;
      }
      assert params != [[PASS]] ==> cards[..i] == cards;
    }

    /** The cards of a command leave the hand of the one to move. */
    method OnClientShowPoker(client: int, desk: Desk, params: seq<seq<int>>, ghost cards: seq<Card>)
      requires desk.Ok() && desk.currPos != -1 && client != NOBODY && desk.Current() == client
      requires Full(desk.clients) && Known(infos, desk.clients)
      requires params == [[PASS]] || forall i :: 0 <= i < |params| ==> |params[i]| == 2
      requires cards == if params == [[PASS]] then [] else Named(params)
      modifies this`infos, desk
      ensures desk.View() == ShowPoker(old(desk.View()), cards)
      ensures infos == if Emptied(old(desk.View()), cards) then Unready(old(infos), desk.clients) else old(infos)
    {
      hide EraseCards, Unready;
      SeatOfCurrent(desk.View(), client);
      var posIndex := desk.PosIndexOf(client);
      EraseEach(desk, posIndex, params, cards);
      if |desk.posPokers[posIndex]| == 0 {
        desk.running := false;
        OnGameStop(desk, true);
        desk.Reset();
      } else {
        desk.MoveNext();
      }
    }

    /** A card command. */
    method OnClientCard(client: int, desk: Desk, params: seq<seq<int>>)
      requires desk.Ok() && Known(infos, desk.clients) && client != NOBODY
      modifies this`infos, desk
      ensures desk.View() == Step(old(desk.View()), Play(client, params))
      ensures infos == if old(desk.running) && !desk.running then Unready(old(infos), desk.clients) else old(infos)
    {
      if |params| <= 0 || !desk.running || desk.landlord == NOBODY {
        return;
      }
      var posIndex := desk.PosIndexOf(client);
      if posIndex == -1 || desk.Current() != client {
        return;
      }
      if params == [[PASS]] {
        OnClientPass(client, desk, params);
      } else {
        OnClientCards(client, desk, params);
      }
    }

    method OnClientPass(client: int, desk: Desk, params: seq<seq<int>>)
      requires desk.Ok() && Known(infos, desk.clients) && MayPlay(desk.View(), client) && params == [[PASS]]
      modifies this`infos, desk
      ensures desk.View() == if CanPass(old(desk.View()), client) then PassOn(old(desk.View())) else old(desk.View())
      ensures infos == if old(desk.running) && !desk.running then Unready(old(infos), desk.clients) else old(infos)
    {
      hide Unready, EraseCards;
      if desk.currShower == NOBODY || desk.currShower == desk.Current() {
        return;
      }
      if desk.Next() == desk.currShower {
        desk.currPoker := ZeroHand;
      }
      OnClientShowPoker(client, desk, params, []);
    }

    method OnClientCards(client: int, desk: Desk, params: seq<seq<int>>)
      requires desk.Ok() && Known(infos, desk.clients) && MayPlay(desk.View(), client)
      requires params != [[PASS]] && params != []
      modifies this`infos, desk
      ensures desk.View() ==
        if CanShow(old(desk.View()), client, params) then ShowCards(old(desk.View()), client, params)
        else old(desk.View())
      ensures infos == if old(desk.running) && !desk.running then Unready(old(infos), desk.clients) else old(infos)
    {
      hide Unready, NamesCards, Formation, IsLarge, Values, EraseCards, SeatsDiffer;
      SeatOfCurrent(desk.View(), client);
      var posIndex := desk.PosIndexOf(client);
      var taken, pokerInfo := CheckCards(params, desk.posPokers[posIndex], desk.currPoker);
      if !taken {
        return;
      }
      PutOnTable(client, desk, pokerInfo);
      OnClientShowPoker(client, desk, params, Named(params));
    }

    /** The hand shown is the one to beat. */
    method PutOnTable(client: int, desk: Desk, pokerInfo: Hand)
      modifies desk`bombCount, desk`currPoker, desk`currShower
      ensures var t := old(desk.View());
        desk.View() == t.(poker := pokerInfo, shower := client,
                          bombs := if pokerInfo.kind == Bomb then t.bombs + 1 else t.bombs)
    {
      if pokerInfo.kind == Bomb {
        desk.bombCount := desk.bombCount + 1;
      }
      desk.currPoker := pokerInfo;
      desk.currShower := client;
    }

    /** A client shows its cards. */
    method OnClientDeclare(client: int, desk: Desk)
      requires desk.Ok() && client in infos && client != NOBODY
      modifies this`infos, desk
      ensures desk.View() ==
        if old(infos)[client].declared then old(desk.View()) else Step(old(desk.View()), Declare(client))
      ensures infos ==
        if !old(infos)[client].declared && CanDeclare(old(desk.View()), client)
        then old(infos)[client := old(infos)[client].(declared := true)] else old(infos)
    {
      if !desk.running || infos[client].declared {
        return;
      }
      var clientPos := desk.PosIndexOf(client);
      if clientPos == -1 {
        return;
      }
      if desk.bided {
        if desk.landlord == NOBODY || desk.landlord != client || desk.Current() != client || desk.multiple == -1
           || |desk.posPokers[clientPos]| != 20 {
          return;
        }
      } else {
        if desk.multiple != -1 {
          return;
        }
      }
      if desk.declareCount == 0 {
        desk.bidPos := clientPos;
      }
      desk.declareCount := desk.declareCount + 1;
      infos := infos[client := infos[client].(declared := true)];
    }

    /** A client is ready; with the third the round begins. */
    method OnClientReady(client: int, desk: Desk)
      requires desk.Ok() && Known(infos, desk.clients) && client in infos && client != NOBODY
      modifies this`infos, desk
      ensures infos ==
        if old(desk.running) || SeatOf(old(desk.clients), client) == -1 then old(infos)
        else old(infos)[client := old(infos)[client].(ready := true)]
      ensures desk.View() ==
        if !old(desk.running) && SeatOf(old(desk.clients), client) != -1 && AllReady(infos, old(desk.clients))
        then Step(old(desk.View()), Begin) else old(desk.View())
    {
      if desk.running {
        return;
      }
      var posIndex := desk.PosIndexOf(client);
      if posIndex == -1 {
        return;
      }
      infos := infos[client := infos[client].(ready := true)];
      var isAllReady := true;
      var i := 0;
      while i < SEATS
        invariant 0 <= i <= SEATS
        invariant isAllReady <==> forall p :: 0 <= p < i ==> desk.clients[p] != NOBODY && infos[desk.clients[p]].ready
      {
        if desk.clients[i] == NOBODY {
          isAllReady := false;
        } else if !infos[desk.clients[i]].ready {
          isAllReady := false;
        }
        i := i + 1;
      }
      if isAllReady {
        desk.Reset();
        desk.running := true;
        desk.QueueTask(GameStart(desk.verifiCode + 1));
      }
    }

    /** A client leaves its desk; a running round is over with that. */
    method OnClientLeaveDesk(client: int, desk: Desk, closing: bool)
      requires desk.Ok() && client in infos
      modifies this`infos, desk
      ensures desk.View() == Step(old(desk.View()), Leave(client, closing))
      ensures infos == if SeatOf(old(desk.clients), client) == -1 then old(infos) else old(infos)[client := NoDesk]
    {
      var posIndex := desk.PosIndexOf(client);
      if posIndex < 0 {
        return;
      }
      desk.clients := desk.clients[posIndex := NOBODY];
      infos := infos[client := NoDesk];
      if desk.running {
        desk.running := false;
        if !closing {
          OnGameStop(desk, false);
          desk.Reset();
        }
      }
    }

    // the queued tasks

    /** The infos of the clients of a desk are reset; they keep the desk. */
    method ResetInfos(desk: Desk)
      requires |desk.clients| == SEATS && Full(desk.clients) && Known(infos, desk.clients)
      modifies this`infos
      ensures infos == FlagsReset(old(infos), desk.clients)
    {
      ghost var was := infos;
      var i := 0;
      while i < SEATS
        invariant 0 <= i <= SEATS && infos == FlagsReset(was, desk.clients[..i])
      {
        infos := infos[desk.clients[i] := ClientInfo(infos[desk.clients[i]].desk, false, false)];
        assert desk.clients[..i + 1] == desk.clients[..i] + [desk.clients[i]];
        i := i + 1;
      }
      assert desk.clients[..SEATS] == desk.clients;
    }

    method OnGameStart(desk: Desk, code: int, rand: nat -> nat)
      requires desk.Ok() && Known(infos, desk.clients)
      modifies this`infos, desk, desk.deskPokers
      ensures var t := old(desk.View());
        if Effective(t, GameStart(code))
        then desk.View() == Deal(t, rand) && infos == FlagsReset(old(infos), desk.clients)
        else desk.View() == t && infos == old(infos)
    {
      hide SeatsDiffer, Dealt, Shuffled;
      if desk.verifiCode != code {
        return;
      }
      var free := desk.AnyNull();
      if !desk.running || free != -1 {
        return;
      }
      desk.ClearPosPokers();
      desk.AllocatePokers(rand);
      ResetInfos(desk);
      desk.QueueTask(GameBid(desk.verifiCode + 1));
    }

    method OnGameBid(desk: Desk, code: int)
      requires desk.Ok()
      modifies desk
      ensures var t := old(desk.View());
        desk.View() == if Effective(t, GameBid(code)) then OpenAuction(t) else t
    {
      if desk.verifiCode != code {
        return;
      }
      var free := desk.AnyNull();
      if !desk.running || free >= 0 {
        return;
      }
      if desk.declareCount == 0 {
        desk.MoveToNextBidPos();
      }
      desk.SetStartPos(desk.bidPos);
      var currClient := desk.Current();
      if currClient != NOBODY {
        desk.bided := true;
      }
    }

    method OnGameLandlord(desk: Desk, landlord: int, code: int)
      requires desk.Ok()
      modifies desk
      ensures var t := old(desk.View());
        desk.View() == if Effective(t, GameLandlord(landlord, code)) then GiveBottom(t, landlord) else t
    {
      hide AddCards;
      if desk.verifiCode != code {
        return;
      }
      var posIndex := desk.PosIndexOf(landlord);
      if !desk.running || desk.landlord == NOBODY || desk.landlord != landlord || posIndex == -1 {
        return;
      }
      desk.SetStartPos(posIndex);
      desk.posPokers := desk.posPokers[posIndex := AddCards(desk.posPokers[posIndex], desk.deskPokers[DEALT_CARDS..])];
    }

    /** One of the queued tasks is called; which and when is not the desk's to say. */
    method RunTask(desk: Desk, index: nat, rand: nat -> nat)
      requires desk.Ok() && Known(infos, desk.clients) && index < |desk.tasks|
      modifies this`infos, desk, desk.deskPokers
      ensures desk.View() == Step(old(desk.View()), Fire(index, rand))
      ensures infos ==
        if old(desk.tasks)[index].GameStart? && Effective(old(desk.View()), old(desk.tasks)[index])
        then FlagsReset(old(infos), desk.clients) else old(infos)
    {
      hide Deal, OpenAuction, GiveBottom, SeatsDiffer;
      var task := desk.tasks[index];
      desk.tasks := desk.tasks[..index] + desk.tasks[index + 1..];
      match task {
        case GameStart(code) => OnGameStart(desk, code, rand);
        case GameBid(code) => OnGameBid(desk, code);
        case GameLandlord(lord, code) => OnGameLandlord(desk, lord, code);
      }
    }

    // ------------------------------------------------------------- from any client

    /** What changes at one desk leaves the others as they are. */
    twostate lemma OthersStay(k: nat)
      requires old(Valid()) && k < |desks|
      requires forall i :: 0 <= i < |desks| && i != k ==> desks[i].View() == old(desks[i].View())
      ensures AllSeats() == old(AllSeats())[k := desks[k].clients]
      ensures forall i :: 0 <= i < |desks| && i != k ==> desks[i].Ok() && DdzRuns.ComesTo(old(logs)[i], desks[i].View())
    {
      forall i | 0 <= i < |desks| && i != k
        ensures desks[i].Ok() && desks[i].clients == old(desks[i].clients)
      {
        assert desks[i].View().seats == old(desks[i].View()).seats;
      }
    }

    /** A step of one desk that moves no client keeps everyone's seat. */
    twostate lemma StaysValid(k: nat)
      requires old(Valid()) && k < |desks|
      requires desks[k].Ok() && desks[k].clients == old(desks[k].clients)
      requires |logs| == |desks| && logs == old(logs)[k := logs[k]] && DdzRuns.ComesTo(logs[k], desks[k].View())
      requires forall i :: 0 <= i < |desks| && i != k ==> desks[i].View() == old(desks[i].View())
      requires infos.Keys == old(infos).Keys && forall c :: c in infos ==> infos[c].desk == old(infos)[c].desk
      ensures Valid()
    {
      OthersStay(k);
      assert AllSeats() == old(AllSeats());
    }

    /** So does one that moves a client, if the seating is kept. */
    twostate lemma MovesValid(k: nat)
      requires old(Valid()) && k < |desks|
      requires desks[k].Ok() && Seating(old(AllSeats())[k := desks[k].clients], infos)
      requires |logs| == |desks| && logs == old(logs)[k := logs[k]] && DdzRuns.ComesTo(logs[k], desks[k].View())
      requires forall i :: 0 <= i < |desks| && i != k ==> desks[i].View() == old(desks[i].View())
      ensures Valid()
    {
      hide Seating, DdzRuns.ComesTo;
      OthersStay(k);
    }

    lemma HasDesk(client: int)
      requires Valid() && client in infos
      ensures client != NOBODY && -1 <= infos[client].desk < |desks|
    {
    }

    method BidCommand(client: int, params: seq<seq<int>>)
      requires Valid() && client in infos
      modifies this`logs, desks
      ensures Valid() && infos == old(infos)
      ensures Steps(if |params| == 1 then infos[client].desk else -1, Bid(client, params == [[ONE]]))
    {
      HasDesk(client);
      hide Seating, Formed, Step, DdzRuns.ComesTo;
      if |params| != 1 || infos[client].desk == -1 {
        return;
      }
      var k := infos[client].desk;
      ghost var t := desks[k].View();
      StepFormed(t, Bid(client, params == [[ONE]]));
      DdzRuns.ComesOn(logs[k], t, Bid(client, params == [[ONE]]));
      SeatsStay(t, Bid(client, params == [[ONE]]));
      DdzBidding.OnClientBid(client, desks[k], params[0] == [ONE]);
      assert desks[k].View().seats == t.seats;
      logs := logs[k := logs[k] + [Bid(client, params == [[ONE]])]];
      StaysValid(k);
    }

    method CardCommand(client: int, params: seq<seq<int>>)
      requires Valid() && client in infos
      modifies this, desks
      ensures Valid()
      ensures Steps(old(infos)[client].desk, Play(client, params))
      ensures var k := old(infos)[client].desk;
        if 0 <= k < |desks| && old(desks[k].running) && !desks[k].running then TakenBack(old(infos), infos, k, false)
        else infos == old(infos)
    {
      hide CanShow, ShowCards, PassOn, Formation, DdzRuns.ComesTo, RoundFormed, SeatsDiffer, TakenBack;
      if infos[client].desk == -1 {
        return;
      }
      var k := infos[client].desk;
      ghost var t := desks[k].View();
      FlagsOfDesk(AllSeats(), infos, k);
      StepFormed(t, Play(client, params));
      DdzRuns.ComesOn(logs[k], t, Play(client, params));
      SeatsStay(t, Play(client, params));
      OnClientCard(client, desks[k], params);
      assert desks[k].View().seats == t.seats;
      logs := logs[k := logs[k] + [Play(client, params)]];
      StaysValid(k);
    }

    method DeclareCommand(client: int)
      requires Valid() && client in infos
      modifies this, desks
      ensures Valid()
      ensures Steps(if old(infos)[client].declared then -1 else old(infos)[client].desk, Declare(client))
    {
      HasDesk(client);
      hide Seating, DdzRuns.ComesTo, RoundFormed, SeatsDiffer, CanDeclare;
      if infos[client].desk == -1 {
        return;
      }
      DeclareAt(client, infos[client].desk);
    }

    method DeclareAt(client: int, k: nat)
      requires Valid() && client in infos && client != NOBODY && k < |desks| && infos[client].desk == k
      modifies this, desks
      ensures Valid() && Steps(if old(infos)[client].declared then -1 else k, Declare(client))
    {
      hide DdzRuns.ComesTo, Formed, CanDeclare, Step, StepTo;
      ghost var t, declared := desks[k].View(), infos[client].declared;
      OnClientDeclare(client, desks[k]);
      ghost var u := desks[k].View();
      DeclaredOrNot(t, u, client, declared, logs[k]);
      assert desks[k].clients == u.seats;
      logs := if declared then logs else logs[k := logs[k] + [Declare(client)]];
      StaysValid(k);
    }

    /** The round of a desk begins with the command that makes its third client ready. */
    method ReadyCommand(client: int, paramSize: nat)
      requires Valid() && client in infos
      modifies this, desks
      ensures Valid()
      ensures var k := old(infos)[client].desk;
        Steps(if 0 <= k < |desks| && paramSize == 0 && !old(infos)[client].ready && AllReady(infos, desks[k].clients)
              then k else -1, Begin)
      ensures infos == old(infos) || infos == old(infos)[client := old(infos)[client].(ready := true)]
    {
      HasDesk(client);
      hide Seating, DdzRuns.ComesTo, RoundFormed, SeatsDiffer;
      if paramSize != 0 || infos[client].ready || infos[client].desk == -1 {
        return;
      }
      ReadyAt(client, infos[client].desk);
    }

    method ReadyAt(client: int, k: nat)
      requires Valid() && client in infos && client != NOBODY && k < |desks| && infos[client].desk == k
      modifies this, desks
      ensures Valid() && Steps(if AllReady(infos, desks[k].clients) then k else -1, Begin)
      ensures infos == old(infos) || infos == old(infos)[client := old(infos)[client].(ready := true)]
    {
      hide DdzRuns.ComesTo, Formed, AllReady, Step, StepTo, Known;
      HasSeat(client, k);
      ghost var t := desks[k].View();
      OnClientReady(client, desks[k]);
      ghost var u := desks[k].View();
      BegunOrNot(t, u, AllReady(infos, t.seats), logs[k]);
      assert desks[k].clients == u.seats;
      logs := if u == t then logs else logs[k := logs[k] + [Begin]];
      StaysValid(k);
    }

    lemma HasSeat(client: int, k: nat)
      requires Valid() && client in infos && k < |desks| && infos[client].desk == k
      ensures |desks[k].clients| == SEATS && SeatOf(desks[k].clients, client) != -1 && Known(infos, desks[k].clients)
    {
      assert AllSeats()[k] == desks[k].clients;
    }

    /** A queued task of the desk `k` is called. */
    method CallTask(k: nat, index: nat, rand: nat -> nat)
      requires Valid() && k < |desks| && index < |desks[k].tasks|
      modifies this, desks, Decks()
      ensures Valid()
      ensures Steps(k, Fire(index, rand))
      ensures
        if old(desks[k].tasks)[index].GameStart? && Effective(old(desks[k].View()), old(desks[k].tasks)[index])
        then TakenBack(old(infos), infos, k, true) else infos == old(infos)
    {
      FlagsOfDesk(AllSeats(), infos, k);
      hide DdzRuns.ComesTo, RoundFormed, SeatsDiffer, TakenBack, FlagsReset, Call, Effective;
      ghost var t := desks[k].View();
      StepFormed(t, Fire(index, rand));
      DdzRuns.ComesOn(logs[k], t, Fire(index, rand));
      SeatsStay(t, Fire(index, rand));
      RunTask(desks[k], index, rand);
      assert desks[k].View().seats == t.seats;
      logs := logs[k := logs[k] + [Fire(index, rand)]];
      StaysValid(k);
    }

    // --------------------------------------------------------------------- seating

    /** A client leaves its desk, if it has one. */
    method LeaveCommand(client: int, closing: bool)
      requires Valid() && client in infos
      modifies this, desks
      ensures Valid()
      ensures infos == old(infos)[client := if old(infos)[client].desk == -1 then old(infos)[client] else NoDesk]
      ensures Steps(old(infos)[client].desk, Leave(client, closing))
    {
      HasDesk(client);
      hide Seating, DdzRuns.ComesTo, RoundFormed, SeatsDiffer;
      if infos[client].desk == -1 {
        return;
      }
      LeaveAt(client, infos[client].desk, closing);
    }

    method LeaveAt(client: int, k: nat, closing: bool)
      requires Valid() && client in infos && k < |desks| && infos[client].desk == k
      modifies this, desks
      ensures Valid() && infos == old(infos)[client := NoDesk] && Steps(k, Leave(client, closing))
    {
      HasSeat(client, k);
      ghost var t, p, all := desks[k].View(), SeatOf(desks[k].clients, client), AllSeats();
      Leaving(all, infos, client, k, p);
      hide Seating, Formed, Step, StepTo, DdzRuns.ComesTo, SeatOf;
      OnClientLeaveDesk(client, desks[k], closing);
      ghost var u := desks[k].View();
      LeftSeat(t, u, client, closing, logs[k]);
      assert desks[k].clients == u.seats;
      logs := logs[k := logs[k] + [Leave(client, closing)]];
      MovesValid(k);
    }

    /** Counts free seats up to one more than `required`; `freePos` is the first. */
    method CountFree(desk: Desk, required: nat) returns (freeCount: nat, freePos: int)
      requires |desk.clients| == SEATS
      ensures freeCount == required <==> FreeCount(desk.clients) == required
      ensures freeCount == required > 0 ==>
        0 <= freePos < SEATS && desk.clients[freePos] == NOBODY && NOBODY !in desk.clients[..freePos]
    {
      freeCount, freePos := 0, -1;
      var posIndex := 0;
      while posIndex < SEATS
        invariant 0 <= posIndex <= SEATS
        invariant freeCount == FreeCount(desk.clients[..posIndex]) <= required
        invariant if freePos == -1 then NOBODY !in desk.clients[..posIndex] && (freeCount == 0 || required == 0)
                  else 0 <= freePos < posIndex && desk.clients[freePos] == NOBODY && NOBODY !in desk.clients[..freePos]
      {
        FreeCountNext(desk.clients, posIndex);
        if desk.clients[posIndex] == NOBODY {
          freeCount := freeCount + 1;
          if freeCount > required {
            FreeCountGrows(desk.clients, posIndex + 1);
            break;
          }
          if freePos == -1 {
            freePos := posIndex;
          }
        }
        posIndex := posIndex + 1;
      }
      assert desk.clients[..SEATS] == desk.clients;
    }

    /** The first desk with just `required` free seats, or -1. */
    method FirstWith(required: nat, last: int) returns (k: int, freePos: int)
      requires required > 0 && forall i :: 0 <= i < |desks| ==> |desks[i].clients| == SEATS
      ensures forall j :: 0 <= j < (if k == -1 then |desks| else k) && Candidate(Tables(), j, last) ==>
        FreeCount(Tables()[j].seats) != required
      ensures k != -1 ==> Candidate(Tables(), k, last) && FreeCount(Tables()[k].seats) == required
      ensures k != -1 ==> 0 <= freePos < SEATS && desks[k].clients[freePos] == NOBODY
      ensures k != -1 ==> NOBODY !in desks[k].clients[..freePos]
    {
      hide FreeCount;
      var i := 0;
      while i < |desks|
        invariant 0 <= i <= |desks|
        invariant forall j :: 0 <= j < i && Candidate(Tables(), j, last) ==> FreeCount(Tables()[j].seats) != required
      {
        assert Tables()[i] == desks[i].View();
        if i != last && !desks[i].running {
          var freeCount;
          freeCount, freePos := CountFree(desks[i], required);
          if freePos != -1 && freeCount == required {
            return i, freePos;
          }
        }
        i := i + 1;
      }
      return -1, -1;
    }

    /** The search over all desks, for one, two and three free seats in turn. */
    method FindDesk(last: int, online: bool, ghost tables: seq<Table>) returns (k: int, freePos: int)
      requires tables == Tables() && forall i :: 0 <= i < |desks| ==> |desks[i].clients| == SEATS
      ensures k == -1 <==> !online || forall i :: !Candidate(tables, i, last)
      ensures k != -1 ==> Preferred(tables, k, last)
      ensures k != -1 ==> 0 <= freePos < SEATS && desks[k].clients[freePos] == NOBODY
      ensures k != -1 ==> NOBODY !in desks[k].clients[..freePos]
    {
      hide FreeCount;
      var required := 1;
      while online && required < 4
        invariant 1 <= required <= 4
        invariant forall i :: Candidate(tables, i, last) ==> FreeCount(tables[i].seats) >= required
      {
        k, freePos := FirstWith(required, last);
        if k != -1 {
          assert Candidate(tables, k, last) && FreeCount(tables[k].seats) == required;
          return;
        }
        forall i | Candidate(tables, i, last)
          ensures FreeCount(tables[i].seats) >= required + 1
        {
          assert FreeCount(Tables()[i].seats) != required;
        }
        required := required + 1;
      }
      forall i | Candidate(tables, i, last)
        ensures FreeCount(tables[i].seats) <= 3
      {
        FreeCountGrows(desks[i].clients, 0);
      }
      return -1, -1;
    }

    method SitDown(client: int, k: nat, freePos: nat)
      requires Valid() && client in infos && infos[client].desk == -1
      requires k < |desks| && freePos < SEATS && !desks[k].running && desks[k].clients[freePos] == NOBODY
      modifies this, desks
      ensures Valid() && infos == old(infos)[client := old(infos)[client].(desk := k)]
      ensures CanSit(old(desks[k].View()), freePos, client) && Steps(k, Sit(freePos, client))
    {
      HasDesk(client);
      Sitting(AllSeats(), infos, client, k, freePos);
      hide Seating, Formed, SeatsDiffer, Step, Candidate, DdzRuns.ComesTo;
      ghost var t := desks[k].View();
      SatDown(t, freePos, client);
      DdzRuns.ComesOn(logs[k], t, Sit(freePos, client));
      desks[k].clients := desks[k].clients[freePos := client];
      assert desks[k].View() == t.(seats := t.seats[freePos := client]);
      infos := infos[client := infos[client].(desk := k)];
      logs := logs[k := logs[k] + [Sit(freePos, client)]];
      MovesValid(k);
    }

    lemma ThreeSeats()
      requires Valid()
      ensures forall i :: 0 <= i < |desks| ==> |desks[i].clients| == SEATS
    {
      assert forall i :: 0 <= i < |desks| ==> desks[i].Ok();
    }

    /** The client leaves its desk, and a desk for it is looked for. */
    method LeaveAndSearch(client: int, online: bool) returns (k: int, freePos: int)
      requires Valid() && client in infos
      modifies this, desks
      ensures Valid() && infos.Keys == old(infos).Keys && client in infos && infos[client].desk == -1
      ensures Steps(old(infos)[client].desk, Leave(client, false))
      ensures k == -1 <==> !online || forall i :: !Candidate(old(Tables()), i, old(infos)[client].desk)
      ensures k != -1 ==> Preferred(old(Tables()), k, old(infos)[client].desk)
      ensures k != -1 ==> 0 <= k < |desks| && k != old(infos)[client].desk && !desks[k].running
      ensures k != -1 ==> 0 <= freePos < SEATS && desks[k].clients[freePos] == NOBODY
      ensures k != -1 ==> NOBODY !in desks[k].clients[..freePos]
    {
      hide Formed, SeatsDiffer, FreeCount, Seating, Preferred;
      var lastDesk := infos[client].desk;
      LeaveCommand(client, false);
      ThreeSeats();
      ghost var tables := Tables();
      SameSearch(old(Tables()), tables, lastDesk);
      k, freePos := FindDesk(lastDesk, online, tables);
      PreferredIsCandidate(tables, k, lastDesk);
    }

    /** A client looks for a desk, after leaving the one it has. */
    method JoinCommand(client: int, online: bool) returns (k: int, freePos: int)
      requires Valid() && client in infos
      modifies this, desks
      ensures Valid()
      ensures client in infos && k == infos[client].desk && infos.Keys == old(infos).Keys
      ensures k == -1 <==> !online || forall i :: !Candidate(old(Tables()), i, old(infos)[client].desk)
      ensures k != -1 ==> Preferred(old(Tables()), k, old(infos)[client].desk)
      ensures k != -1 ==> CanSit(old(desks[k].View()), freePos, client) && NOBODY !in old(desks[k].clients)[..freePos]
      ensures forall i :: 0 <= i < |desks| ==>
        if i == old(infos)[client].desk then StepTo(old(desks[i].View()), Leave(client, false), desks[i].View())
        else if i == k then StepTo(old(desks[i].View()), Sit(freePos, client), desks[i].View())
        else desks[i].View() == old(desks[i].View())
    {
      hide Formed, SeatsDiffer, Candidate, Seating, Preferred;
      k, freePos := LeaveAndSearch(client, online);
      if k != -1 {
        assert desks[k].View() == old(desks[k].View());
        SitDown(client, k, freePos);
      }
    }

    /** A client comes to the game, without a desk. */
    method ClientComes(client: int)
      requires Valid() && client !in infos && client != NOBODY
      modifies this`infos
      ensures Valid() && infos == old(infos)[client := NoDesk]
    {
      infos := infos[client := NoDesk];
    }

    /** A client goes, and leaves its desk first. */
    method ClientGoes(client: int, closing: bool)
      requires Valid() && client in infos
      modifies this, desks
      ensures Valid() && infos == old(infos) - {client}
      ensures Steps(old(infos)[client].desk, Leave(client, closing))
    {
      hide Seating, Formed, SeatsDiffer;
      LeaveCommand(client, closing);
      NotSeated(AllSeats(), infos, client);
      infos := infos - {client};
    }

    // ---------------------------------------------------------------------- robots

    /** What is taken of the command of a robot. */
    lemma RobotCounts(k: nat, found: seq<Card>)
      requires Valid() && k < |desks|
      requires var t := desks[k].View();
        && Formed(t) && t.running && t.landlord != NOBODY && BigFinder.BigFound(DdzRuns.TurnHand(t), t.poker, found)
        && (t.poker.kind == Zero ==> (found == [] <==> DdzRuns.TurnHand(t) == []))
      ensures var t := desks[k].View();
        Counts(t, Play(Current(t), DdzRuns.RobotParams(found))) <==> found != [] || t.shower != Current(t)
    {
      hide BigFinder.BigFound, Seating, Formed, TakesPlay, DdzRuns.RobotParams, DdzRuns.After, DdzRuns.Story;
      var t := desks[k].View();
      DdzRuns.RobotMoves(logs[k], t, DdzRuns.StoryOf(logs[k]), found);
    }

    /**
     * The turn of a robot, if the client still is one, with the code it was queued under, and if it is to move
     * with cards in its hand. A robot plays what the search finds, and passes if it finds nothing. Once there is a
     * landlord the command is taken, but for a pass when it is its own hand that lies on the table.
     */
    method RobotTurn(client: int, isRobot: bool, code: int, verifyCode: int) returns (turn: bool, found: seq<Card>)
      requires Valid() && client in infos
      modifies this, desks
      ensures Valid()
      ensures turn ==> isRobot && code == verifyCode && 0 <= old(infos)[client].desk < |desks|
      ensures turn ==>
        var k := old(infos)[client].desk;
        && InTurn(old(desks[k].View()), client) && RobotMoved(old(desks[k].View()), client, found)
        && Steps(k, Play(client, DdzRuns.RobotParams(found)))
      ensures !turn ==> NothingHappens()
      ensures !turn && isRobot && code == verifyCode && 0 <= infos[client].desk < |desks| ==>
        !InTurn(desks[infos[client].desk].View(), client)
    {
      hide RobotMoved, RoundFormed, SeatsDiffer, Seating, TakesPlay, DdzRuns.RobotParams;
      turn, found := false, [];
      HasDesk(client);
      if infos[client].desk == -1 {
        return;
      }
      var k := infos[client].desk;
      var desk := desks[k];
      if !desk.running || desk.Current() != client || desk.Current() == NOBODY {
        return;
      }
      SeatOfCurrent(desk.View(), client);
      var clientPos := desk.PosIndexOf(client);
      if |desk.posPokers[clientPos]| == 0 {
        return;
      }
      if !isRobot || code != verifyCode {
        return;
      }
      turn := true;
      found := RobotMove(client, k);
    }

    /** What the robot finds, and whether its command is taken. */
    ghost predicate RobotMoved(t: Table, client: int, found: seq<Card>)
      requires Formed(t)
    {
      && BigFinder.BigFound(DdzRuns.TurnHand(t), t.poker, found)
      && (t.poker.kind == Zero ==> (found == [] <==> DdzRuns.TurnHand(t) == []))
      && (t.landlord != NOBODY ==>
            (Counts(t, Play(client, DdzRuns.RobotParams(found))) <==> found != [] || t.shower != client))
    }

    method RobotMove(client: int, k: nat) returns (found: seq<Card>)
      requires Valid() && client in infos && k < |desks| && infos[client].desk == k && InTurn(desks[k].View(), client)
      modifies this, desks
      ensures Valid() && Formed(old(desks[k].View())) && RobotMoved(old(desks[k].View()), client, found)
      ensures Steps(k, Play(client, DdzRuns.RobotParams(found)))
    {
      hide BigFinder.BigFound, RoundFormed, SeatsDiffer, Seating, TakesPlay, DdzRuns.RobotParams, DdzRuns.ComesTo;
      var desk := desks[k];
      SoundDesk(k);
      found := BigFinder.FindBigPokers(desk.currPoker, desk.posPokers[desk.currPos]);
      if desk.landlord != NOBODY {
        RobotCounts(k, found);
      }
      CardCommand(client, DdzRuns.RobotParams(found));
    }

    lemma SoundDesk(k: nat)
      requires Valid() && k < |desks|
      ensures DdzRound.Sound(desks[k].View())
    {
      hide Seating, DdzRuns.After, DdzRuns.Story;
      DdzRuns.EveryRun(logs[k], desks[k].View(), DdzRuns.StoryOf(logs[k]));
    }

    /** What an overdue client is made to do: pass in the auction, play its first card or pass in play. */
    method MoveOverdue(k: nat)
      requires Valid() && k < |desks|
      modifies this, desks
      ensures Valid()
      ensures forall i :: 0 <= i < |desks| ==> LookedAt(old(desks[i].View()), i == k, desks[i].View())
    {
      hide RoundFormed, SeatsDiffer, DdzRuns.ComesTo;
      var desk := desks[k];
      if !desk.running || desk.Current() == NOBODY {
        return;
      }
      var client := desk.Current();
      OneSeat(AllSeats(), infos, desk.clients[desk.currPos], k);
      if desk.landlord == NOBODY {
        BidCommand(client, [[PASS]]);
      } else {
        SeatOfCurrent(desk.View(), client);
        var posIndex := desk.PosIndexOf(client);
        if |desk.posPokers[posIndex]| > 0 {
          if desk.currPoker.kind == Zero {
            CardCommand(client, [Text(desk.posPokers[posIndex][0])]);
          } else {
            CardCommand(client, [[PASS]]);
          }
        }
      }
    }

    /** The regular look at all desks: where the one to move has waited for too long, it is made to move. */
    method OnUpdate(online: bool, elapsed: seq<int>, maxWaiting: int)
      requires Valid() && |elapsed| == |desks|
      modifies this, desks
      ensures Valid()
      ensures forall i :: 0 <= i < |desks| ==>
        LookedAt(old(desks[i].View()), online && elapsed[i] > maxWaiting, desks[i].View())
    {
      hide LookedAt;
      ghost var was := Tables();
      NotLookedAt();
      if !online {
        return;
      }
      var k := 0;
      while k < |desks|
        invariant 0 <= k <= |desks| && Valid()
        invariant forall i :: k <= i < |desks| ==> desks[i].View() == was[i]
        invariant forall i :: 0 <= i < k ==> LookedAt(was[i], elapsed[i] > maxWaiting, desks[i].View())
      {
        UpdateDesk(k, elapsed[k] > maxWaiting);
        k := k + 1;
      }
    }

    /** The look at one desk. */
    method UpdateDesk(k: nat, late: bool)
      requires Valid() && k < |desks|
      modifies this, desks
      ensures Valid() && LookedAt(old(desks[k].View()), late, desks[k].View())
      ensures forall i :: 0 <= i < |desks| && i != k ==> desks[i].View() == old(desks[i].View())
    {
      hide Formed, StepTo, Overdue;
      if desks[k].running {
        if late {
          MoveOverdue(k);
        }
      }
    }
  }

  /** The client is to move, and has cards. */
  ghost predicate InTurn(t: Table, client: int)
  {
    Formed(t) && t.running && client != NOBODY && Current(t) == client && DdzRuns.TurnHand(t) != []
  }

  /** Where the one to move is `late`, the desk takes the step that is made for it. */
  ghost predicate LookedAt(t: Table, late: bool, u: Table)
  {
    if late && Formed(t) && IsOverdue(t) then StepTo(t, Overdue(t), u) else u == t
  }

  lemma NotLookedAt()
    ensures forall t :: LookedAt(t, false, t)
  {
  }

  /** What showing the cards comes to at a desk, for a client that has done so before or not. */
  lemma DeclaredOrNot(t: Table, u: Table, client: int, declared: bool, es: seq<Event>)
    requires Formed(t) && u == (if declared then t else Step(t, Declare(client))) && DdzRuns.ComesTo(es, t)
    ensures Formed(u) && u.seats == t.seats && DdzRuns.ComesTo(if declared then es else es + [Declare(client)], u)
    ensures if declared then u == t else StepTo(t, Declare(client), u)
  {
    hide DdzRuns.ComesTo, RoundFormed, SeatsDiffer;
    StepFormed(t, Declare(client));
    DdzRuns.ComesOn(es, t, Declare(client));
    SeatsStay(t, Declare(client));
  }

  lemma LeftSeat(t: Table, u: Table, client: int, closing: bool, es: seq<Event>)
    requires Formed(t) && SeatOf(t.seats, client) != -1
    requires u == Step(t, Leave(client, closing)) && DdzRuns.ComesTo(es, t)
    ensures Formed(u) && u.seats == t.seats[SeatOf(t.seats, client) := NOBODY]
    ensures DdzRuns.ComesTo(es + [Leave(client, closing)], u) && StepTo(t, Leave(client, closing), u)
  {
    hide DdzRuns.ComesTo, RoundFormed, SeatsDiffer;
    StepFormed(t, Leave(client, closing));
    DdzRuns.ComesOn(es, t, Leave(client, closing));
  }

  lemma SatDown(t: Table, p: nat, client: int)
    requires Formed(t) && p < SEATS && !t.running && t.seats[p] == NOBODY && client != NOBODY && client !in t.seats
    ensures CanSit(t, p, client) && Step(t, Sit(p, client)) == t.(seats := t.seats[p := client])
    ensures Formed(Step(t, Sit(p, client)))
  {
    StepFormed(t, Sit(p, client));
  }

  /** What getting ready comes to at a desk, when all are ready or not. */
  lemma BegunOrNot(t: Table, u: Table, ready: bool, es: seq<Event>)
    requires Formed(t) && u == (if !t.running && ready then Step(t, Begin) else t) && DdzRuns.ComesTo(es, t)
    ensures Formed(u) && u.seats == t.seats && DdzRuns.ComesTo(if u == t then es else es + [Begin], u)
    ensures if ready then StepTo(t, Begin, u) else u == t
  {
    hide DdzRuns.ComesTo, RoundFormed, SeatsDiffer;
    StepFormed(t, Begin);
    DdzRuns.ComesOn(es, t, Begin);
    SeatsStay(t, Begin);
  }

  /** Only sitting down and leaving change who sits at a desk. */
  lemma SeatsStay(t: Table, e: Event)
    requires Formed(t) && !e.Sit? && !e.Leave?
    ensures Step(t, e).seats == t.seats
  {
    hide BidAnswer, Formation, IsLarge, EraseCards, NamesCards, Values, Shuffled, Dealt, AddCards;
  }

  /** There is a client to move, with cards if it is to play. */
  predicate IsOverdue(t: Table)
    requires Formed(t)
  {
    t.running && Current(t) != NOBODY && (t.landlord != NOBODY ==> t.hands[t.turn] != [])
  }

  /** The move made for an overdue client. */
  function Overdue(t: Table): Event
    requires Formed(t) && IsOverdue(t)
  {
    if t.landlord == NOBODY then Bid(Current(t), false)
    else if t.poker.kind == Zero then Play(Current(t), [Text(t.hands[t.turn][0])])
    else Play(Current(t), [[PASS]])
  }

  /**
   * On every run the move made for an overdue client is taken: an answer in the auction, a card if there is no
   * hand to beat, and a pass exactly if the hand to beat is not its own. The answer is no bid, and the card is
   * its lowest.
   */
  lemma OverdueMoves(es: seq<Event>, t: Table, r: DdzRound.Round)
    requires DdzRuns.Reached(es, t, r) && t.running && t.turn != -1
    ensures IsOverdue(t)
    ensures Counts(t, Overdue(t)) <==> t.landlord == NOBODY || t.poker == ZeroHand || t.shower != Current(t)
    ensures t.landlord != NOBODY && DdzRuns.LeadOrPass(t) ==> Counts(t, Overdue(t))
    ensures t.landlord == NOBODY ==>
      var u := Step(t, Overdue(t));
      u.multiple == t.multiple && u.topBidder == t.topBidder && u.answers == t.answers[t.turn := -1]
    ensures t.landlord != NOBODY && t.poker == ZeroHand ==>
      exists c :: c in t.hands[t.turn] && Overdue(t) == Play(Current(t), [Text(c)])
                  && forall d :: d in t.hands[t.turn] && d != c ==> Less(c, d)
  {
    hide Step, DdzRound.Track, DdzRuns.After, DdzRuns.Story, DdzRound.Auctioned, DdzRound.Answered, DdzRound.CodesRise,
      OnTable, IsDeck, BeatsOrder.Ascent, CanShow;
    DdzRuns.EveryRun(es, t, r);
    if t.landlord != NOBODY {
      var hand := DdzRuns.TurnHand(t);
      DdzRuns.AlwaysAMove(es, t, r, if hand == [] then DeskPokers()[0] else hand[0]);
      ZeroIsZero(t.poker);
      LowestFirst(hand);
    } else {
      OverdueAnswer(t);
    }
  }

  lemma LowestFirst(hand: seq<Card>)
    requires IsHand(hand) && hand != []
    ensures forall d :: d in hand && d != hand[0] ==> Less(hand[0], d)
  {
  }

  lemma OverdueAnswer(t: Table)
    requires Formed(t) && t.running && t.turn != -1 && t.landlord == NOBODY
    ensures IsOverdue(t) && Counts(t, Overdue(t))
    ensures var u := Step(t, Overdue(t));
      u.multiple == t.multiple && u.topBidder == t.topBidder && u.answers == t.answers[t.turn := -1]
  {
    hide SeatsDiffer;
    AnswerOutcome(t, false);
    PassAnswers(t);
    hide BidAnswer;
  }

  lemma PassAnswers(t: Table)
    requires Formed(t) && t.turn != -1
    ensures BidAnswer(t, false).answers == t.answers[t.turn := -1]
  {
    if t.multiple != -1 {
      Auction.LaterAnswer(BidView(t), false, Declarer(t));
    }
  }

  lemma ZeroIsZero(h: Hand)
    requires OnTable(h)
    ensures h.kind == Zero <==> h == ZeroHand
  {
    StrengthBounds(h);
  }

  ghost predicate Emptied(t: Table, cards: seq<Card>)
    requires Formed(t) && t.turn != -1
  {
    EraseCards(t.hands[t.turn], cards) == []
  }

  lemma SeatOfCurrent(t: Table, client: int)
    requires Formed(t) && client != NOBODY && Current(t) == client
    ensures SeatOf(t.seats, client) == t.turn
  {
  }

  lemma NothingErased(hand: seq<Card>)
    ensures EraseCards(hand, []) == hand
  {
  }

  lemma ErasedNext(hand: seq<Card>, cards: seq<Card>, i: nat)
    requires i < |cards|
    ensures EraseCards(hand, cards[..i + 1]) == Erase(EraseCards(hand, cards[..i]), cards[i])
  {
    assert cards[..i + 1][..i] == cards[..i];
  }
}
