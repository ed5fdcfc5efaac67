// The desk object: its fields and the operations on them.

module DdzDesk {
  import opened PokerInfo
  import opened Cards
  import opened Deck
  import opened DdzTable
  import T = DdzTable
  import Auction

  class Desk {
    var running: bool
    var currShower: int
    var landlord: int
    var tempLandlord: int
    var clients: seq<int>
    var currPoker: Hand
    var bombCount: int
    var declareCount: int
    var bided: bool
    var currPos: int
    var firstPos: int
    const deskPokers: array<Card>
    var posPokers: seq<seq<Card>>
    var bidPos: int
    var multiple: int
    var bidInfo: seq<int>
    var verifiCode: int

    // the delayed calls queued for this desk, oldest first
    var tasks: seq<Task>

    ghost function View(): Table
      reads this, deskPokers
    {
      Table(running, currShower, landlord, tempLandlord, clients, currPoker, bombCount, declareCount, bided,
            currPos, firstPos, deskPokers[..], posPokers, bidPos, multiple, bidInfo, verifiCode, tasks)
    }

    ghost predicate Ok()
      reads this, deskPokers
    {
      Formed(View())
    }

    constructor ()
      ensures View() == NewTable() && fresh(deskPokers)
    {
      bidPos, verifiCode := -1, 0;
      clients, bidInfo, posPokers := [NOBODY, NOBODY, NOBODY], [0, 0, 0], [[], [], []];
      running, landlord, tempLandlord, multiple, bombCount, declareCount := false, NOBODY, NOBODY, -1, 0, 0;
      currPos, firstPos, currPoker, currShower, bided, tasks := -1, -1, ZeroHand, NOBODY, false, [];
      deskPokers := new Card[DECK_SIZE](i requires 0 <= i < DECK_SIZE => DeskPokers()[i]);
      new;
      assert deskPokers[..] == DeskPokers();
    }

    method Reset()
      requires |posPokers| == SEATS && |bidInfo| == SEATS
      modifies this
      ensures View() == T.Reset(old(View()))
    {
      ResetAuction();
      ResetPlay();
      ClearPosPokers();
    }

    method ResetAuction()
      modifies `running, `landlord, `tempLandlord, `multiple, `declareCount, `bided
      ensures View() == old(View()).(running := false, landlord := NOBODY, topBidder := NOBODY, multiple := -1,
                                     declares := 0, bided := false)
    {
      ResetBids();
      running, landlord, declareCount := false, NOBODY, 0;
    }

    method ResetBids()
      modifies `tempLandlord, `multiple, `bided
      ensures View() == old(View()).(topBidder := NOBODY, multiple := -1, bided := false)
    {
      tempLandlord, multiple, bided := NOBODY, -1, false;
    }

    method ResetPlay()
      modifies `bombCount, `currPos, `firstPos, `currPoker, `currShower
      ensures View() == old(View()).(bombs := 0, turn := -1, first := -1, poker := ZeroHand, shower := NOBODY)
    {
      bombCount, currPos, firstPos, currPoker, currShower := 0, -1, -1, ZeroHand, NOBODY;
    }

    method ClearPosPokers()
      requires |posPokers| == SEATS && |bidInfo| == SEATS
      modifies `posPokers, `bidInfo
      ensures View() == Cleared(old(View()))
    {
      var i := 0;
      while i < SEATS
        invariant 0 <= i <= SEATS && |posPokers| == SEATS && |bidInfo| == SEATS
        invariant forall k :: 0 <= k < i ==> posPokers[k] == [] && bidInfo[k] == 0
      {
        posPokers, bidInfo := posPokers[i := []], bidInfo[i := 0];
        i := i + 1;
      }
      assert posPokers == [[], [], []] && bidInfo == [0, 0, 0];
    }

    method SetStartPos(pos: int)
      modifies `currPos, `firstPos
      ensures View() == old(View()).(turn := pos, first := pos)
    {
      firstPos, currPos := pos, pos;
    }

    function Current(): (client: int)
      requires Ok()
      reads this, deskPokers
      ensures client == T.Current(View())
    {
      if currPos == -1 then NOBODY else clients[currPos]
    }

    function First(): int
      requires Ok()
      reads this, deskPokers
    {
      if firstPos == -1 then NOBODY else clients[firstPos]
    }

    function NextPosIndex(): (pos: int)
      requires -1 <= currPos < SEATS
      reads this
      ensures currPos != -1 ==> pos == Auction.Next(currPos)
    {
      (currPos + 1) % SEATS
    }

    function Next(): int
      requires Ok()
      reads this, deskPokers
    {
      clients[NextPosIndex()]
    }

    method MoveNext()
      requires 0 <= currPos < SEATS
      modifies `currPos
      ensures View() == old(View()).(turn := Auction.Next(old(currPos)))
    {
      currPos := NextPosIndex();
    }

    /** The first seat that is free, or -1. */
    method AnyNull() returns (pos: int)
      requires |clients| == SEATS
      ensures pos == -1 <==> Full(clients)
      ensures pos != -1 ==> 0 <= pos < SEATS && clients[pos] == NOBODY && NOBODY !in clients[..pos]
    {
      var i := 0;
      while i < SEATS
        invariant 0 <= i <= SEATS && forall k :: 0 <= k < i ==> clients[k] != NOBODY
      {
        if clients[i] == NOBODY {
          return i;
        }
        i := i + 1;
      }
      return -1;
    }

    method PosIndexOf(client: int) returns (pos: int)
      requires |clients| == SEATS
      ensures pos == SeatOf(clients, client)
    {
      var i := 0;
      while i < SEATS
        invariant 0 <= i <= SEATS && forall k :: 0 <= k < i ==> !(clients[k] != NOBODY && clients[k] == client)
      {
        if clients[i] != NOBODY && clients[i] == client {
          return i;
        }
        i := i + 1;
      }
      return -1;
    }

    method MoveToNextBidPos()
      requires Ok()
      modifies `bidPos
      ensures View() == old(View()).(bidPos := (old(bidPos) + 1) % SEATS)
    {
      bidPos := (bidPos + 1) % SEATS;
    }

    method IncreaseMultiple()
      modifies `multiple
      ensures View() == old(View()).(multiple := old(multiple) + 1)
    {
      multiple := multiple + 1;
    }

    /** Puts a task in the queue, under the next code. */
    method QueueTask(task: Task)
      requires task.code == verifiCode + 1
      modifies `verifiCode, `tasks
      ensures View() == Queued(old(View()), task)
    {
      verifiCode := verifiCode + 1;
      tasks := tasks + [task];
    }

    /** Shuffles the deck in place and deals 51 cards; `rand(n)` is the n-th number drawn. */
    method AllocatePokers(rand: nat -> nat)
      requires deskPokers.Length == DECK_SIZE && posPokers == [[], [], []]
      modifies `posPokers, deskPokers
      ensures deskPokers[..] == Shuffled(old(deskPokers[..]), rand, DECK_SIZE - 1)
      ensures posPokers == Dealt(deskPokers[..], DEALT_CARDS)
    {
      ghost var was := deskPokers[..];
      var posI := DECK_SIZE - 1;
      while posI != 0
        invariant 0 <= posI < DECK_SIZE
        invariant deskPokers[..] == Shuffled(was, rand, DECK_SIZE - 1 - posI)
        invariant posPokers == [[], [], []]
      {
        ghost var before := deskPokers[..];
        var rndI := Spot(rand(DECK_SIZE - 1 - posI), posI);
        var temp := deskPokers[posI];
        deskPokers[posI] := deskPokers[rndI];
        deskPokers[rndI] := temp;
        assert deskPokers[..] == Swapped(before, posI, rndI);
        posI := posI - 1;
      }

      var pokerIndex := 0;
      while pokerIndex < DEALT_CARDS
        invariant 0 <= pokerIndex <= DEALT_CARDS
        invariant posPokers == Dealt(deskPokers[..], pokerIndex)
        invariant deskPokers[..] == Shuffled(was, rand, DECK_SIZE - 1)
      {
        var p := Turn(pokerIndex);
        posPokers := posPokers[p := AddCard(posPokers[p], deskPokers[pokerIndex])];
        pokerIndex := pokerIndex + 1;
      }
    }
  }
}
