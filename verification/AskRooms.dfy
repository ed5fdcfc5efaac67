// The rooms of the question game and the handlers that work on them, each
// proved to be a step of a room's state machine.

module AskRooms {
  import opened AskTable

  class AskRoom {
    var clients: seq<int>
    var isRunning: bool
    const isTeamMode: bool
    var currPosIndex: int
    var roomLeaderIndex: int
    var questionIndex: int
    var questions: nat
    var verifyCode: int

    /** The calls queued for the room. */
    var tasks: seq<Task>

    ghost function View(): Room
      reads this
    {
      Room(clients, isRunning, isTeamMode, roomLeaderIndex, currPosIndex, questionIndex, questions, verifyCode, tasks)
    }

    constructor (team: bool)
      ensures View() == NewRoom(team)
    {
      clients := [NOBODY, NOBODY, NOBODY, NOBODY, NOBODY, NOBODY, NOBODY, NOBODY];
      isRunning, isTeamMode, currPosIndex, roomLeaderIndex, questionIndex := false, team, -1, -1, -1;
      questions, verifyCode, tasks := 0, 0, [];
    }

    method Reset()
      modifies `isRunning, `currPosIndex, `questionIndex
      ensures View() == old(View()).(running := false, turn := -1, question := -1)
    {
      isRunning, currPosIndex, questionIndex := false, -1, -1;
    }

    /** A call is queued under a new code. */
    method QueueTask(task: Task)
      modifies `verifyCode, `tasks
      ensures View() == Queued(old(View()), task)
    {
      verifyCode := task.code;
      tasks := tasks + [task];
    }

    method GetFreePos() returns (pos: int)
      requires |clients| == ROOM_CAPACITY
      ensures pos == SeatOf(clients, NOBODY)
    {
      pos := IndexOfClient(NOBODY);
    }

    method IndexOfClient(client: int) returns (pos: int)
      requires |clients| == ROOM_CAPACITY
      ensures pos == SeatOf(clients, client)
    {
      var i := 0;
      while i < ROOM_CAPACITY
        invariant 0 <= i <= ROOM_CAPACITY && SeatOf(clients, client) == IndexFrom(clients, client, i)
      {
        if clients[i] == client {
          return i;
        }
        i := i + 1;
      }
      return -1;
    }

    predicate IsNull()
      requires |clients| == ROOM_CAPACITY
      reads this
      ensures IsNull() <==> Empty(clients)
    {
      && clients[0] == NOBODY && clients[1] == NOBODY && clients[2] == NOBODY && clients[3] == NOBODY
      && clients[4] == NOBODY && clients[5] == NOBODY && clients[6] == NOBODY && clients[7] == NOBODY
    }

    method MoveNext()
      requires Formed(View())
      modifies `currPosIndex
      ensures View() == MovedOn(old(View()))
    {
      if isTeamMode {
        currPosIndex := (currPosIndex + 1) % 2;
      } else {
        var i := 0;
        var currPos := (currPosIndex + 1) % ROOM_CAPACITY;
        while i < ROOM_CAPACITY
          invariant currPosIndex == old(currPosIndex) && currPos == (currPosIndex + 1) % ROOM_CAPACITY
          invariant i > 0 ==> clients[currPos] == NOBODY
        {
          if clients[currPos] != NOBODY {
            currPosIndex := currPos;
            return;
          }
          currPos := (currPosIndex + 1) % ROOM_CAPACITY;
          i := i + 1;
        }
      }
    }
  }

  /** The loop over the seven other seats. */
  method NextTaken(room: AskRoom, start: nat) returns (found: int)
    requires |room.clients| == ROOM_CAPACITY
    ensures found == FindFrom(room.clients, start, 0)
  {
    var currPos: nat, n: nat := start, 0;
    while n < ROOM_CAPACITY - 1
      invariant 0 <= n <= ROOM_CAPACITY - 1 && FindFrom(room.clients, start, 0) == FindFrom(room.clients, currPos, n)
    {
      currPos := currPos % ROOM_CAPACITY;
      if room.clients[currPos] != NOBODY {
        return currPos;
      }
      currPos, n := currPos + 1, n + 1;
    }
    return -1;
  }

  method OnRoomGameStop(room: AskRoom)
    requires Formed(room.View())
    modifies room
    ensures room.View() == Stopped(old(room.View()))
  {
    room.isRunning := false;
    if room.roomLeaderIndex == -1 || room.clients[room.roomLeaderIndex] == NOBODY {
      var posIndex := room.roomLeaderIndex;
      var currPos := NextTaken(room, posIndex + 1);
      if currPos != -1 {
        room.roomLeaderIndex := currPos;
      }
    }
  }

  /** Counts the players. */
  method CountPlayers(room: AskRoom) returns (count: nat)
    requires |room.clients| == ROOM_CAPACITY
    ensures count == Players(room.clients)
  {
    count := 0;
    var i := 0;
    while i < ROOM_CAPACITY
      invariant 0 <= i <= ROOM_CAPACITY && count == Players(room.clients[..i])
    {
      assert room.clients[..i + 1][..i] == room.clients[..i];
      if room.clients[i] != NOBODY {
        count := count + 1;
      }
      i := i + 1;
    }
    assert room.clients[..i] == room.clients;
  }

  method OnClientLeaveRoom(room: AskRoom, posIndex: nat)
    requires Formed(room.View()) && posIndex < ROOM_CAPACITY
    modifies room
    ensures room.View() == LeaveRoom(old(room.View()), posIndex)
  {
    hide FindFrom, Stopped, Players;
    room.clients := room.clients[posIndex := NOBODY];
    if room.isRunning {
      if room.isTeamMode {
        if posIndex % 2 == 0 {
          if room.clients[0] == NOBODY && room.clients[2] == NOBODY && room.clients[4] == NOBODY
            && room.clients[6] == NOBODY {
            OnRoomGameStop(room);
            return;
          }
        } else {
          if room.clients[1] == NOBODY && room.clients[3] == NOBODY && room.clients[5] == NOBODY
            && room.clients[7] == NOBODY {
            OnRoomGameStop(room);
            return;
          }
        }
      } else {
        var leftCount := CountPlayers(room);
        if leftCount < 2 {
          OnRoomGameStop(room);
          return;
        }
      }
    } else if posIndex == room.roomLeaderIndex {
      room.roomLeaderIndex := -1;
      var currPos := NextTaken(room, posIndex + 1);
      if currPos != -1 {
        room.roomLeaderIndex := currPos;
      }
    }
  }

  method OnClientJoinRoom(room: AskRoom, client: int, posIndex: nat)
    requires Formed(room.View()) && CanJoin(room.View()) && posIndex == SeatOf(room.clients, NOBODY)
    modifies room
    ensures room.View() == JoinRoom(old(room.View()), client)
  {
    room.clients := room.clients[posIndex := client];
    if room.roomLeaderIndex == -1 {
      room.roomLeaderIndex := posIndex;
    }
  }

  /**
   * What the game keeps about a client: the number of its room or -1, whether it is ready, and where its
   * search began.
   */
  datatype AskInfo = AskInfo(room: int, ready: bool, finder: int)

  const ROOM_COUNT := 100

  /** Everyone who sits, the leader aside, is ready. */
  predicate AllReady(infos: map<int, AskInfo>, seats: seq<int>, leader: int)
  {
    forall p :: 0 <= p < |seats| && seats[p] != NOBODY && p != leader ==> seats[p] in infos && infos[seats[p]].ready
  }

  predicate Available(rooms: seq<Room>, k: int)
  {
    0 <= k < |rooms| && CanJoin(rooms[k])
  }

  /** The room `n` places after `start`, in a circle. */
  function Place(start: nat, n: nat): (k: nat)
    ensures k < ROOM_COUNT
  {
    (start + n) % ROOM_COUNT
  }

  /** The first room from `start` on, `n` places on, that can be joined. */
  ghost predicate FirstFrom(rooms: seq<Room>, start: nat, n: nat)
  {
    n < ROOM_COUNT && Available(rooms, Place(start, n)) && forall m :: 0 <= m < n ==> !Available(rooms, Place(start, m))
  }

  function StartIndex(finder: int): int
  {
    if finder > 0 then (finder + 1) % ROOM_COUNT else finder
  }

  /**
   * The room that is found, and the number that is remembered for the next search. It is the first from
   * the start; but if that one is empty and the search did not start at the beginning, it is the first
   * of all.
   */
  ghost predicate Found(rooms: seq<Room>, finder: nat, k: nat, n: nat)
  {
    exists m :: FirstFrom(rooms, StartIndex(finder), m) && FoundAfter(rooms, finder, m, k, n)
  }

  ghost predicate FoundAfter(rooms: seq<Room>, finder: nat, m: nat, k: nat, n: nat)
    requires FirstFrom(rooms, StartIndex(finder), m)
  {
    var f := Place(StartIndex(finder), m);
    if !Empty(rooms[f].seats) || StartIndex(finder) == 0 || finder == 0 then k == f && n == m
    else FirstFrom(rooms, 0, n) && k == n
  }

  lemma PlaceOf(start: nat, k: nat) returns (n: nat)
    requires start < ROOM_COUNT && k < ROOM_COUNT
    ensures n < ROOM_COUNT && Place(start, n) == k
  {
    n := if k >= start then k - start else k + ROOM_COUNT - start;
  }

  lemma PlaceNext(start: nat, n: nat)
    ensures Place(start, n + 1) == (Place(start, n) + 1) % ROOM_COUNT
  {
  }

  lemma NoneAvailable(rooms: seq<Room>, start: nat)
    requires |rooms| == ROOM_COUNT && start < ROOM_COUNT
    requires forall m :: 0 <= m < ROOM_COUNT ==> !Available(rooms, Place(start, m))
    ensures forall k :: !Available(rooms, k)
  {
    forall k
      ensures !Available(rooms, k)
    {
      if 0 <= k < ROOM_COUNT {
        var m := PlaceOf(start, k);
      }
    }
  }

  lemma FoundIs(rooms: seq<Room>, finder: nat, m: nat, k: nat, n: nat)
    requires FirstFrom(rooms, StartIndex(finder), m) && FoundAfter(rooms, finder, m, k, n)
    ensures Found(rooms, finder, k, n)
  {
  }

  /** What the search has seen: rooms that cannot be joined, and before a restart an empty one. */
  ghost predicate Seen(views: seq<Room>, finder: nat, base: nat, i: nat, restarted: bool, first: nat)
  {
    && (forall m :: 0 <= m < i ==> !Available(views, Place(base, m)))
    && if restarted then
         && base == 0 && StartIndex(finder) != 0 && finder != 0
         && FirstFrom(views, StartIndex(finder), first) && Empty(views[Place(StartIndex(finder), first)].seats)
       else base == StartIndex(finder)
  }

  lemma SeenFound(views: seq<Room>, finder: nat, base: nat, i: nat, restarted: bool, first: nat)
    requires |views| == ROOM_COUNT && i < ROOM_COUNT
    requires Seen(views, finder, base, i, restarted, first) && Available(views, Place(base, i))
    requires !restarted ==> !Empty(views[Place(base, i)].seats) || StartIndex(finder) == 0 || finder == 0
    ensures Found(views, finder, Place(base, i), i)
  {
    assert FirstFrom(views, base, i);
    FoundIs(views, finder, if restarted then first else i, Place(base, i), i);
  }

  /**
   * The rooms have come to be as they are by events, so they are led; who sits in a room has that room, and one
   * seat in it; and who has a room sits there.
   */
  ghost predicate InOrder(views: seq<Room>, infos: map<int, AskInfo>)
  {
    && |views| == ROOM_COUNT
    && (forall i :: 0 <= i < |views| ==> Led(views[i]) && Reachable(views[i]) && SeatsDiffer(views[i].seats))
    && (forall i, c :: 0 <= i < |views| && c in views[i].seats && c != NOBODY ==> c in infos && infos[c].room == i)
    && (forall c :: c in infos ==> c != NOBODY && -1 <= infos[c].room < ROOM_COUNT && 0 <= infos[c].finder < ROOM_COUNT)
    && (forall c :: c in infos && infos[c].room != -1 ==> c in views[infos[c].room].seats)
  }

  /** A client has a room exactly if it sits there, in one seat, and it sits in no other room. */
  lemma OneSeat(views: seq<Room>, infos: map<int, AskInfo>, c: int, k: nat)
    requires InOrder(views, infos) && c in infos && k < ROOM_COUNT
    ensures infos[c].room == k <==> c in views[k].seats
    ensures c in views[k].seats ==>
      exists p :: 0 <= p < ROOM_CAPACITY && views[k].seats[p] == c
                  && forall q :: 0 <= q < ROOM_CAPACITY && q != p ==> views[k].seats[q] != c
    ensures c in views[k].seats ==> forall i :: 0 <= i < ROOM_COUNT && i != k ==> c !in views[i].seats
  {
    if c in views[k].seats {
      assert Led(views[k]) && SeatsDiffer(views[k].seats);
      var p :| 0 <= p < |views[k].seats| && views[k].seats[p] == c;
    }
  }

  ghost predicate StepTo(r: Room, e: Event, s: Room)
  {
    Formed(r) && s == Step(r, e)
  }

  /** The room `k` takes a step and the others stay. */
  ghost predicate Steps(before: seq<Room>, after: seq<Room>, k: int, e: Event)
  {
    |before| == |after| &&
    forall i :: 0 <= i < |before| ==> if i == k then StepTo(before[i], e, after[i]) else after[i] == before[i]
  }

  /** The room that a client has after a step of the room `k`. */
  ghost function RoomAfter(before: seq<Room>, known: map<int, AskInfo>, k: int, e: Event, c: int): int
    requires c in known
  {
    if e.Join? && e.client == c && Available(before, k) then k
    else if e.Leave? && e.client == c && known[c].room == k then -1
    else known[c].room
  }

  /** What the step of a room does to the infos: only a client that joins gets a room, and one that leaves has none. */
  ghost predicate InfosFollow(before: seq<Room>, known: map<int, AskInfo>, infos: map<int, AskInfo>, k: int, e: Event)
  {
    && infos.Keys == known.Keys && (e.Join? ==> e.client in known && known[e.client].room == -1)
    && (forall c :: c in infos ==> c != NOBODY && -1 <= infos[c].room < ROOM_COUNT && 0 <= infos[c].finder < ROOM_COUNT)
    && forall c :: c in infos ==> infos[c].room == RoomAfter(before, known, k, e, c)
  }

  lemma LeaveFollows(before: seq<Room>, known: map<int, AskInfo>, k: int, client: int)
    requires InOrder(before, known) && client in known && known[client].room == k != -1
    ensures InfosFollow(before, known, known[client := known[client].(room := -1)], k, Leave(client))
  {
    hide Led, SeatsDiffer, Reachable;
  }

  lemma JoinFollows(before: seq<Room>, known: map<int, AskInfo>, k: nat, client: int, finder: nat)
    requires InOrder(before, known) && client in known && known[client].room == -1
    requires Available(before, k) && finder < ROOM_COUNT
    ensures InfosFollow(before, known, known[client := AskInfo(k, known[client].ready, finder)], k, Join(client))
  {
    hide Led, SeatsDiffer, Reachable;
  }

  /** Who sits in a room after a step, if nobody had two seats before and who joins had none. */
  lemma SeatedAfter(r: Room, e: Event, c: int)
    requires Formed(r) && SeatsDiffer(r.seats) && (e.Join? ==> e.client !in r.seats) && c != NOBODY
    ensures SeatsDiffer(Step(r, e).seats)
    ensures c in Step(r, e).seats <==>
      (c in r.seats && !(e.Leave? && e.client == c)) || (e.Join? && e.client == c && CanJoin(r))
  {
    hide Step, CanJoin;
    StepSeatsAfter(r, e);
    Joinable(r);
    var seats := SeatsAfter(r, e);
    if e.Join? && e.client != NOBODY && CanJoin(r) {
      OneReplaced(r.seats, SeatOf(r.seats, NOBODY), e.client, c);
    } else if e.Leave? && e.client != NOBODY && SeatOf(r.seats, e.client) != -1 {
      OneReplaced(r.seats, SeatOf(r.seats, e.client), NOBODY, c);
    } else {
      assert r.seats[0..] == r.seats;
    }
  }

  lemma OneReplaced(seats: seq<int>, p: nat, d: int, c: int)
    requires SeatsDiffer(seats) && p < |seats| && (d != NOBODY ==> d !in seats) && c != NOBODY
    ensures SeatsDiffer(seats[p := d])
    ensures c in seats[p := d] <==> (c in seats && c != seats[p]) || c == d
  {
    var after := seats[p := d];
    assert after[p] == d;
    if c in seats && c != seats[p] {
      var q :| 0 <= q < |seats| && seats[q] == c;
      assert after[q] == c;
    }
  }

  lemma LedAreFormed(views: seq<Room>)
    ensures forall i :: 0 <= i < |views| && Led(views[i]) ==> Formed(views[i])
  {
  }

  lemma RoomInOrder(before: seq<Room>, known: map<int, AskInfo>, after: seq<Room>, infos: map<int, AskInfo>,
                    k: int, e: Event)
    requires InOrder(before, known) && Steps(before, after, k, e) && InfosFollow(before, known, infos, k, e)
    ensures forall i :: 0 <= i < |after| ==> Led(after[i]) && Reachable(after[i]) && SeatsDiffer(after[i].seats)
  {
    hide Step, CanJoin, SeatsDiffer, Reachable;
    if 0 <= k < |after| {
      ReachableOn(before[k], e);
      StepKeeps(before[k], e);
      SeatedAfter(before[k], e, 0);
    }
  }

  /** A step of one room keeps everything in order. */
  lemma StepInOrder(before: seq<Room>, known: map<int, AskInfo>, after: seq<Room>, infos: map<int, AskInfo>,
                    k: int, e: Event)
    requires InOrder(before, known) && Steps(before, after, k, e) && InfosFollow(before, known, infos, k, e)
    ensures InOrder(after, infos)
  {
    hide Step, CanJoin, SeatsDiffer, Led, Reachable;
    RoomInOrder(before, known, after, infos, k, e);
    LedAreFormed(before);
    forall i, c | 0 <= i < |after| && c != NOBODY && (c in after[i].seats || (c in infos && infos[c].room == i))
      ensures c in infos && infos[c].room == i && c in after[i].seats
    {
      if i == k { SeatedAfter(before[i], e, c); }
    }
  }

  /** The same for a step in which nobody joins or leaves. */
  lemma StepStays(before: seq<Room>, infos: map<int, AskInfo>, after: seq<Room>, k: int, e: Event)
    requires InOrder(before, infos) && Steps(before, after, k, e) && !e.Join? && !e.Leave?
    ensures InOrder(after, infos)
  {
    StayFollows(before, infos, k, e);
    hide InOrder, Steps, InfosFollow;
    StepInOrder(before, infos, after, infos, k, e);
  }

  lemma StayFollows(before: seq<Room>, infos: map<int, AskInfo>, k: int, e: Event)
    requires InOrder(before, infos) && !e.Join? && !e.Leave?
    ensures InfosFollow(before, infos, infos, k, e)
  {
    hide Led, SeatsDiffer, Reachable;
  }

  lemma ComesInOrder(views: seq<Room>, infos: map<int, AskInfo>, client: int)
    requires InOrder(views, infos) && client !in infos && client != NOBODY
    ensures InOrder(views, infos[client := AskInfo(-1, false, 0)])
  {
    hide Led, SeatsDiffer, Reachable;
  }

  lemma NobodySteps(views: seq<Room>, e: Event)
    ensures Steps(views, views, -1, e)
  {
  }

  /** Whoever has begun a game is ready. */
  predicate StillReady(begun: set<int>, infos: map<int, AskInfo>)
  {
    forall c :: c in begun ==> c in infos && infos[c].ready
  }

  lemma ReadyStays(begun: set<int>, infos: map<int, AskInfo>, client: int, info: AskInfo)
    requires StillReady(begun, infos) && (client in infos ==> info.ready == infos[client].ready)
    ensures StillReady(begun, infos[client := info])
  {
  }

  predicate SameReady(before: map<int, AskInfo>, after: map<int, AskInfo>)
  {
    after.Keys == before.Keys && forall c :: c in before ==> after[c].ready == before[c].ready
  }

  lemma RoomGiven(infos: map<int, AskInfo>, client: int)
    requires client in infos
    ensures SameReady(infos, infos[client := infos[client].(room := -1)])
  {
  }

  lemma ReadyTwice(a: map<int, AskInfo>, b: map<int, AskInfo>, c: map<int, AskInfo>)
    requires SameReady(a, b) && SameReady(b, c)
    ensures SameReady(a, c)
  {
  }

  class AskPlugin {
    const rooms: seq<AskRoom>
    var infos: map<int, AskInfo>

    /** The clients that have begun a game as leaders. */
    ghost var begun: set<int>

    ghost function Views(): (views: seq<Room>)
      reads rooms
      ensures |views| == |rooms| && forall i :: 0 <= i < |rooms| ==> views[i] == rooms[i].View()
    {
      seq(|rooms|, i requires 0 <= i < |rooms| reads rooms => rooms[i].View())
    }

    ghost predicate Apart()
    {
      forall i, j :: 0 <= i < j < |rooms| ==> rooms[i] != rooms[j]
    }

    ghost predicate Valid()
      reads this, rooms
    {
      && Apart() && InOrder(Views(), infos)
      && StillReady(begun, infos)
    }

    /** The search over all rooms, with its one restart. */
    method SearchRoom(finder: nat, ghost views: seq<Room>) returns (k: int, i: nat)
      requires |rooms| == ROOM_COUNT && views == Views() && finder < ROOM_COUNT
      requires forall j :: 0 <= j < |rooms| ==> |rooms[j].clients| == ROOM_CAPACITY
      ensures k == -1 <==> forall j :: !Available(views, j)
      ensures k != -1 ==> 0 <= k < ROOM_COUNT && i < ROOM_COUNT && Available(views, k) && Found(views, finder, k, i)
    {
      hide Found, FirstFrom, Place, CanJoin, Empty;
      var findNullCount := 1;
      var startIndex := finder;
      if startIndex > 0 {
        startIndex := (startIndex + 1) % ROOM_COUNT;
      }
      var currPos := startIndex;
      i := 0;
      ghost var base: nat, first: nat := startIndex, 0;
      PlaceStart(base);
      while i < ROOM_COUNT
        invariant 0 <= i <= ROOM_COUNT && currPos == Place(base, i) && findNullCount in {0, 1} && base < ROOM_COUNT
        invariant Seen(views, finder, base, i, findNullCount == 0, first)
        decreases findNullCount, ROOM_COUNT - i
      {
        PlaceNext(base, i);
        var currRoom := rooms[currPos];
        assert views[currPos] == currRoom.View();
        Joinable(views[currPos]);
        if currRoom.isRunning {
          i := i + 1;
          currPos := (currPos + 1) % ROOM_COUNT;
          continue;
        }
        if currRoom.IsNull() {
          findNullCount := findNullCount - 1;
          if findNullCount + 1 <= 0 || startIndex == 0 || finder == 0 {
            SeenFound(views, finder, base, i, findNullCount == -1, first);
            return currPos, i;
          } else {
            FirstSeen(views, base, i);
            first := i;
            base := 0;
            i := 0;
            currPos := 0;
            PlaceStart(base);
            continue;
          }
        }
        var freePos := currRoom.GetFreePos();
        if freePos != -1 {
          assert Available(views, currPos);
          SeenFound(views, finder, base, i, findNullCount == 0, first);
          return currPos, i;
        }
        i := i + 1;
        currPos := (currPos + 1) % ROOM_COUNT;
      }
      NoneAvailable(views, base);
      return -1, 0;
    }

    constructor (team: bool)
      ensures Valid() && infos == map[] && forall i :: 0 <= i < |rooms| ==> rooms[i].View() == NewRoom(team)
    {
      var list: seq<AskRoom> := [];
      while |list| < ROOM_COUNT
        invariant |list| <= ROOM_COUNT
        invariant forall i :: 0 <= i < |list| ==> fresh(list[i]) && list[i].View() == NewRoom(team)
        invariant forall i, j :: 0 <= i < j < |list| ==> list[i] != list[j]
      {
        var room := new AskRoom(team);
        list := list + [room];
      }
      rooms, infos, begun := list, map[], {};
      new;
      forall i | 0 <= i < |rooms|
        ensures Led(rooms[i].View()) && Reachable(rooms[i].View())
        ensures forall p :: 0 <= p < ROOM_CAPACITY ==> rooms[i].clients[p] == NOBODY
      {
        NewReachable(team);
        EveryRun(team, []);
        assert rooms[i].View().seats == NewRoom(team).seats;
      }
    }

    lemma HasRoom(client: int)
      requires Valid() && client in infos
      ensures |rooms| == ROOM_COUNT && client != NOBODY
      ensures -1 <= infos[client].room < ROOM_COUNT && 0 <= infos[client].finder < ROOM_COUNT
      ensures infos[client].room != -1 ==> client in rooms[infos[client].room].clients
    {
      if infos[client].room != -1 {
        assert Views()[infos[client].room].seats == rooms[infos[client].room].clients;
      }
    }

    /** The client leaves its seat in the room `k`. */
    method LeaveSeat(client: int, k: nat)
      requires Valid() && k < ROOM_COUNT && client != NOBODY && client in rooms[k].clients
      modifies rooms
      ensures Steps(old(Views()), Views(), k, Leave(client))
    {
      hide Led, LeaveRoom, SeatsDiffer, Reachable;
      LedFormed();
      var room := rooms[k];
      var clientPos := room.IndexOfClient(client);
      assert room.clients[0..] == room.clients;
      OnClientLeaveRoom(room, clientPos);
    }

    /** A client gives up its seat. */
    method LeaveCurrent(client: int)
      requires Valid() && client in infos && infos[client].room != -1
      modifies this`infos, rooms
      ensures Valid() && Steps(old(Views()), Views(), old(infos)[client].room, Leave(client))
      ensures infos == old(infos)[client := old(infos)[client].(room := -1)]
    {
      HasRoom(client);
      var k := infos[client].room;
      ghost var before, known := Views(), infos;
      LeaveFollows(before, known, k, client);
      ReadyStays(begun, infos, client, infos[client].(room := -1));
      hide InOrder, InfosFollow, Steps, Formed, Apart, StillReady;
      LeaveSeat(client, k);
      StepInOrder(before, known, Views(), known[client := known[client].(room := -1)], k, Leave(client));
      infos := infos[client := infos[client].(room := -1)];
    }

    /** The client takes the first free seat of the room `k`. */
    method TakeSeat(client: int, k: nat)
      requires Valid() && k < ROOM_COUNT && client != NOBODY && CanJoin(rooms[k].View())
      modifies rooms
      ensures Steps(old(Views()), Views(), k, Join(client))
    {
      hide Led, JoinRoom, SeatsDiffer, Reachable;
      LedFormed();
      var posIndex := rooms[k].GetFreePos();
      Joinable(rooms[k].View());
      OnClientJoinRoom(rooms[k], client, posIndex);
    }

    /** A client takes the first free seat of a room. */
    method Enter(client: int, k: nat, finder: nat)
      requires Valid() && client in infos && infos[client].room == -1
      requires k < ROOM_COUNT && finder < ROOM_COUNT && CanJoin(rooms[k].View())
      modifies this`infos, rooms
      ensures Valid() && Steps(old(Views()), Views(), k, Join(client))
      ensures infos == old(infos)[client := AskInfo(k, old(infos)[client].ready, finder)]
    {
      HasRoom(client);
      ghost var before, known := Views(), infos;
      JoinFollows(before, known, k, client, finder);
      ReadyStays(begun, infos, client, AskInfo(k, infos[client].ready, finder));
      hide InOrder, InfosFollow, Steps, CanJoin, Apart, StillReady;
      TakeSeat(client, k);
      StepInOrder(before, known, Views(), known[client := AskInfo(k, known[client].ready, finder)], k, Join(client));
      infos := infos[client := AskInfo(k, infos[client].ready, finder)];
    }

    /** A client comes to the game, without a room. */
    method ClientComes(client: int)
      requires Valid() && client !in infos && client != NOBODY
      modifies this`infos
      ensures Valid() && infos == old(infos)[client := AskInfo(-1, false, 0)]
    {
      ComesInOrder(Views(), infos, client);
      hide InOrder;
      infos := infos[client := AskInfo(-1, false, 0)];
    }

    /**
     * A client asks for a room: any room, or one of the first eight by its number. `left` are the rooms
     * when it has given up the seat it had.
     */
    method JoinCommand(client: int, paramSize: nat, roomIndex: int) returns (k: int, ghost left: seq<Room>)
      requires Valid() && client in infos
      modifies this`infos, rooms
      ensures Valid() && client in infos && infos[client].room == k && SameReady(old(infos), infos)
      ensures |left| == ROOM_COUNT && forall i :: 0 <= i < ROOM_COUNT ==>
        if i == old(infos)[client].room then StepTo(old(rooms[i].View()), Leave(client), left[i])
        else left[i] == old(rooms[i].View())
      ensures forall i :: 0 <= i < ROOM_COUNT ==>
        if i == k then StepTo(left[i], Join(client), rooms[i].View()) else rooms[i].View() == left[i]
      ensures k != -1 ==> Available(left, k)
      ensures paramSize == 0 ==>
        if k == -1 then forall i :: !Available(left, i)
        else Found(left, old(infos)[client].finder, k, infos[client].finder)
      ensures paramSize == 1 ==>
        k == if 0 <= roomIndex < ROOM_CAPACITY && Available(left, roomIndex) then roomIndex else -1
      ensures paramSize > 1 ==> k == -1
    {
      hide Found, InOrder, Available, StepTo, SameReady;
      GiveUpSeat(client);
      left := Views();
      ghost var between := infos;
      k := JoinAs(client, paramSize, roomIndex, left);
      ReadyTwice(old(infos), between, infos);
    }

    /** A client gives up the seat it has, if it has one. */
    method GiveUpSeat(client: int)
      requires Valid() && client in infos
      modifies this`infos, rooms
      ensures Valid() && |rooms| == ROOM_COUNT && client in infos && infos[client].room == -1
      ensures infos[client].finder == old(infos)[client].finder && 0 <= infos[client].finder
      ensures SameReady(old(infos), infos)
      ensures Steps(old(Views()), Views(), old(infos)[client].room, Leave(client))
    {
      HasRoom(client);
      hide InOrder, Steps, Apart, StillReady, SameReady;
      if infos[client].room != -1 {
        RoomGiven(infos, client);
        LeaveCurrent(client);
      } else {
        NobodySteps(Views(), Leave(client));
      }
    }

    method JoinAs(client: int, paramSize: nat, roomIndex: int, ghost left: seq<Room>) returns (k: int)
      requires Valid() && client in infos && infos[client].room == -1 && 0 <= infos[client].finder && left == Views()
      modifies this`infos, rooms
      ensures Valid() && client in infos && infos[client].room == k && SameReady(old(infos), infos)
      ensures Steps(left, Views(), k, Join(client)) && (k != -1 ==> Available(left, k)) && 0 <= infos[client].finder
      ensures paramSize == 0 ==>
        if k == -1 then forall i :: !Available(left, i)
        else Found(left, old(infos)[client].finder, k, infos[client].finder)
      ensures paramSize == 1 ==>
        k == if 0 <= roomIndex < ROOM_CAPACITY && Available(left, roomIndex) then roomIndex else -1
      ensures paramSize > 1 ==> k == -1
    {
      hide Found, InOrder, Available, StepTo;
      k := -1;
      if paramSize == 0 {
        k := JoinAny(client, left);
      } else if paramSize == 1 {
        k := JoinNumbered(client, roomIndex, left);
      }
      HasRoom(client);
    }

    method JoinAny(client: int, ghost left: seq<Room>) returns (k: int)
      requires Valid() && client in infos && infos[client].room == -1 && left == Views()
      modifies this`infos, rooms
      ensures Valid() && client in infos && infos[client].room == k && Steps(old(Views()), Views(), k, Join(client))
      ensures SameReady(old(infos), infos)
      ensures if k == -1 then forall i :: !Available(left, i)
              else Available(left, k) && Found(left, old(infos)[client].finder, k, infos[client].finder)
    {
      hide Found, Led, Reachable;
      LedFormed();
      var i;
      k, i := SearchRoom(infos[client].finder, left);
      if k != -1 {
        Enter(client, k, i);
      }
    }

    method JoinNumbered(client: int, roomIndex: int, ghost left: seq<Room>) returns (k: int)
      requires Valid() && client in infos && infos[client].room == -1 && left == Views()
      modifies this`infos, rooms
      ensures Valid() && client in infos && infos[client].room == k && Steps(old(Views()), Views(), k, Join(client))
      ensures SameReady(old(infos), infos)
      ensures k == if 0 <= roomIndex < ROOM_CAPACITY && Available(left, roomIndex) then roomIndex else -1
    {
      hide Led, StepTo, SeatOf, Reachable;
      k := -1;
      if roomIndex < 0 || roomIndex >= ROOM_CAPACITY {
        return;
      }
      LedFormed();
      Joinable(left[roomIndex]);
      if rooms[roomIndex].isRunning {
        return;
      }
      var posIndex := rooms[roomIndex].GetFreePos();
      if posIndex == -1 {
        return;
      }
      Enter(client, roomIndex, infos[client].finder);
      k := roomIndex;
    }

    // ---------------------------------------------------------------------- the game

    /** Counts both sides as long as everyone but the leader is ready. */
    method CountReady(room: AskRoom) returns (allReady: bool, red: nat, blue: nat)
      requires |room.clients| == ROOM_CAPACITY
      requires forall p :: 0 <= p < ROOM_CAPACITY && room.clients[p] != NOBODY ==> room.clients[p] in infos
      ensures allReady <==> AllReady(infos, room.clients, room.roomLeaderIndex)
      ensures allReady ==> red == SideCount(room.clients, 0) && blue == SideCount(room.clients, 1)
    {
      red, blue := 0, 0;
      assert SideCount(room.clients[..0], 0) == 0 && SideCount(room.clients[..0], 1) == 0;
      hide SideCount;
      var i := 0;
      while i < ROOM_CAPACITY
        invariant 0 <= i <= ROOM_CAPACITY
        invariant red == SideCount(room.clients[..i], 0) && blue == SideCount(room.clients[..i], 1)
        invariant AllReady(infos, room.clients[..i], room.roomLeaderIndex)
      {
        assert room.clients[..i + 1][..i] == room.clients[..i];
        SideCountNext(room.clients, i, 0);
        SideCountNext(room.clients, i, 1);
        if room.clients[i] != NOBODY {
          if !infos[room.clients[i]].ready && i != room.roomLeaderIndex {
            return false, red, blue;
          }
          if i % 2 == 0 {
            red := red + 1;
          } else {
            blue := blue + 1;
          }
        }
        i := i + 1;
      }
      assert room.clients[..i] == room.clients;
      allReady := true;
    }

    /**
     * A client is ready; the leader starts the game, if all others are and the sides are equal. As nothing takes
     * the readiness back, a client that has begun a game never begins another.
     */
    method ReadyCommand(client: int, zone: bool, filled: bool) returns (starts: bool)
      requires Valid() && client in infos
      modifies this`infos, this`begun, rooms
      ensures Valid()
      ensures starts ==> client !in old(begun) && client in infos && infos[client].ready
      ensures begun == old(begun) + if starts then {client} else {}
      ensures old(infos)[client].ready ==> !starts && infos == old(infos)
      ensures Steps(old(Views()), Views(), if starts then old(infos)[client].room else -1, Begin(filled))
      ensures starts ==> zone && 0 <= old(infos)[client].room < ROOM_COUNT
      ensures starts ==>
        var r := old(rooms[infos[client].room].View());
        && Formed(r) && CanBegin(r, filled)
        && r.leader == SeatOf(r.seats, client) && AllReady(old(infos), r.seats, r.leader)
      ensures infos == old(infos) || infos == old(infos)[client := old(infos)[client].(ready := true)]
    {
      HasRoom(client);
      starts := false;
      if infos[client].ready || infos[client].room == -1 {
        return;
      }
      LeaderSits();
      LedFormed();
      hide InOrder, AllReady, SideCount, CanBegin, StepTo, SeatOf;
      var k := infos[client].room;
      var currRoom := rooms[k];
      if currRoom.isRunning {
        return;
      }
      var clientPos := currRoom.IndexOfClient(client);
      if clientPos == -1 {
        return;
      }
      if clientPos != currRoom.roomLeaderIndex {
        SetReady(client);
      } else {
        starts := LeaderReady(client, k, zone, filled);
      }
    }

    /** The leader of the room `k` is ready: the game begins, if it can. */
    method LeaderReady(client: int, k: nat, zone: bool, filled: bool) returns (starts: bool)
      requires Valid() && k < ROOM_COUNT && Formed(rooms[k].View()) && !rooms[k].isRunning
      requires client in infos && !infos[client].ready
      requires rooms[k].roomLeaderIndex != -1 && rooms[k].clients[rooms[k].roomLeaderIndex] != NOBODY
      modifies this`infos, this`begun, rooms
      ensures Valid() && Steps(old(Views()), Views(), if starts then k else -1, Begin(filled))
      ensures starts ==> zone && CanBegin(old(rooms[k].View()), filled) && client !in old(begun)
      ensures starts ==> AllReady(old(infos), old(rooms[k].clients), old(rooms[k].roomLeaderIndex))
      ensures infos == if starts then old(infos)[client := old(infos)[client].(ready := true)] else old(infos)
      ensures begun == old(begun) + if starts then {client} else {}
    {
      hide InOrder, AllReady, CanBegin, Steps;
      starts := BeginRoom(k, zone, filled);
      if starts {
        SetReady(client);
        begun := begun + {client};
      }
    }

    /** The client is ready, which moves nobody. */
    method SetReady(client: int)
      requires Valid() && client in infos
      modifies this`infos
      ensures Valid() && infos == old(infos)[client := old(infos)[client].(ready := true)]
    {
      hide Led, SeatsDiffer, Reachable;
      infos := infos[client := infos[client].(ready := true)];
    }

    /** The leader of the room `k` has asked to begin. */
    method BeginRoom(k: nat, zone: bool, filled: bool) returns (starts: bool)
      requires Valid() && k < ROOM_COUNT && Formed(rooms[k].View()) && !rooms[k].isRunning
      requires rooms[k].roomLeaderIndex != -1 && rooms[k].clients[rooms[k].roomLeaderIndex] != NOBODY
      modifies rooms
      ensures Valid() && Steps(old(Views()), Views(), if starts then k else -1, Begin(filled))
      ensures starts ==> zone && CanBegin(old(rooms[k].View()), filled)
      ensures starts ==> AllReady(infos, old(rooms[k].clients), old(rooms[k].roomLeaderIndex))
    {
      SeatsKnown();
      hide AllReady, Led, SideCount, CanBegin, StepTo, SeatOf, InOrder;
      starts := BeginIfReady(rooms[k], zone, filled);
      if starts {
        StepStays(old(Views()), infos, Views(), k, Begin(filled));
      } else {
        assert Views() == old(Views());
      }
    }

    /** The leader has asked to begin. */
    method BeginIfReady(room: AskRoom, zone: bool, filled: bool) returns (starts: bool)
      requires Formed(room.View()) && !room.isRunning
      requires room.roomLeaderIndex != -1 && room.clients[room.roomLeaderIndex] != NOBODY
      requires forall p :: 0 <= p < ROOM_CAPACITY && room.clients[p] != NOBODY ==> room.clients[p] in infos
      modifies room
      ensures starts ==> zone && CanBegin(old(room.View()), filled)
      ensures starts ==> AllReady(infos, old(room.clients), old(room.roomLeaderIndex))
      ensures if starts then StepTo(old(room.View()), Begin(filled), room.View()) else room.View() == old(room.View())
      ensures room.clients == old(room.clients)
    {
      starts := false;
      var allReady, red, blue := CountReady(room);
      if !allReady || red != blue || !zone {
        return;
      }
      if filled {
        room.questions := room.questions + QUESTION_COUNT;
      }
      if room.questions < QUESTION_COUNT {
        return;
      }
      room.Reset();
      room.isRunning := true;
      room.QueueTask(GameStart(room.verifyCode + 1));
      starts := true;
    }

    /** One of the calls queued for the room `k` is made; which and when is not the room's to say. */
    method CallTask(k: nat, index: nat)
      requires Valid() && k < ROOM_COUNT && index < |rooms[k].tasks|
      modifies rooms
      ensures Valid() && Steps(old(Views()), Views(), k, Fire(index))
    {
      LedFormed();
      hide InOrder, StepTo;
      RunTask(rooms[k], index);
      StepStays(old(Views()), infos, Views(), k, Fire(index));
    }

    method RunTask(room: AskRoom, index: nat)
      requires Formed(room.View()) && index < |room.tasks|
      modifies room
      ensures StepTo(old(room.View()), Fire(index), room.View())
    {
      var task := room.tasks[index];
      room.tasks := room.tasks[..index] + room.tasks[index + 1..];
      match task {
        case GameStart(code) => OnRoomGameStart(room, code);
        case GameQuestion(code) => OnRoomGameQuestion(room, code);
      }
    }

    method OnRoomGameStart(room: AskRoom, verifyCode: int)
      modifies room
      ensures var r, task := old(room.View()), GameStart(verifyCode);
        room.View() == if Effective(r, task) then Call(r, task) else r
    {
      if room.verifyCode != verifyCode {
        return;
      }
      if !room.isRunning {
        return;
      }
      if room.questions <= 0 {
        return;
      }
      room.currPosIndex := -1;
      room.QueueTask(GameQuestion(room.verifyCode + 1));
    }

    method OnRoomGameQuestion(room: AskRoom, verifyCode: int)
      modifies room
      ensures var r, task := old(room.View()), GameQuestion(verifyCode);
        room.View() == if Effective(r, task) then Call(r, task) else r
    {
      if room.verifyCode != verifyCode || !room.isRunning {
        return;
      }
      room.currPosIndex := 0;
      room.questionIndex := room.questionIndex + 1;
    }

    /** An answer: the number of the question, and the key; with the answer to the last question the game is over. */
    method AnswerCommand(client: int, params: seq<int>)
      requires Valid() && client in infos
      modifies rooms
      ensures Valid()
      ensures
        if |params| == 2 then
          Steps(old(Views()), Views(), infos[client].room, Answer(client, params[0], params[1]))
        else Views() == old(Views())
    {
      if |params| != 2 || infos[client].room == -1 {
        return;
      }
      LedFormed();
      var k := infos[client].room;
      AnswerIn(rooms[k], client, params[0], params[1]);
      StepStays(old(Views()), infos, Views(), k, Answer(client, params[0], params[1]));
    }

    method AnswerIn(room: AskRoom, client: int, questionIndex: int, key: int)
      requires Formed(room.View()) && client != NOBODY
      modifies room
      ensures StepTo(old(room.View()), Answer(client, questionIndex, key), room.View())
    {
      hide Stopped, MovedOn;
      if questionIndex < 0 || key < 0 || !room.isRunning {
        return;
      }
      var clientPos := room.IndexOfClient(client);
      if clientPos == -1 || clientPos % 2 != room.currPosIndex {
        return;
      }
      if questionIndex != room.questionIndex || questionIndex >= room.questions {
        return;
      }
      if questionIndex < room.questions - 1 {
        room.questionIndex := room.questionIndex + 1;
        room.MoveNext();
      } else {
        OnRoomGameStop(room);
      }
    }

    lemma SeatsKnown()
      requires Valid()
      ensures |rooms| == ROOM_COUNT && forall i :: 0 <= i < ROOM_COUNT ==>
        forall p :: 0 <= p < |rooms[i].clients| && rooms[i].clients[p] != NOBODY ==> rooms[i].clients[p] in infos
    {
      hide Led, SeatsDiffer, Reachable;
    }

    lemma LeaderSits()
      requires Valid()
      ensures forall i :: 0 <= i < ROOM_COUNT && !rooms[i].isRunning && rooms[i].roomLeaderIndex != -1 ==>
        |rooms[i].clients| == ROOM_CAPACITY && 0 <= rooms[i].roomLeaderIndex < ROOM_CAPACITY
        && rooms[i].clients[rooms[i].roomLeaderIndex] != NOBODY
    {
      assert forall i :: 0 <= i < ROOM_COUNT ==> Led(rooms[i].View());
    }

    lemma LedFormed()
      requires Valid()
      ensures forall i :: 0 <= i < ROOM_COUNT ==> Formed(rooms[i].View())
    {
    }
  }

  /** Only one seat of a room changes, when a client joins or leaves. */
  function SeatsAfter(r: Room, e: Event): seq<int>
    requires Formed(r)
  {
    match e
    case Join(c) => if CanJoin(r) && c != NOBODY then r.seats[SeatOf(r.seats, NOBODY) := c] else r.seats
    case Leave(c) => if c != NOBODY && SeatOf(r.seats, c) != -1 then r.seats[SeatOf(r.seats, c) := NOBODY] else r.seats
    case _ => r.seats
  }

  lemma StepSeatsAfter(r: Room, e: Event)
    requires Formed(r)
    ensures Step(r, e).seats == SeatsAfter(r, e)
  {
    hide SeatOf, FindFrom, SideEmpty, SideCount, CanAnswer, CanBegin;
  }

  lemma PlaceStart(base: nat)
    requires base < ROOM_COUNT
    ensures Place(base, 0) == base
  {
  }

  lemma FirstSeen(views: seq<Room>, base: nat, i: nat)
    requires i < ROOM_COUNT && Available(views, Place(base, i))
    requires forall m :: 0 <= m < i ==> !Available(views, Place(base, m))
    ensures FirstFrom(views, base, i)
  {
  }

  lemma Joinable(r: Room)
    requires |r.seats| == ROOM_CAPACITY
    ensures CanJoin(r) <==> !r.running && SeatOf(r.seats, NOBODY) != -1
    ensures Empty(r.seats) ==> SeatOf(r.seats, NOBODY) == 0
  {
    assert r.seats[0..] == r.seats;
  }
}
