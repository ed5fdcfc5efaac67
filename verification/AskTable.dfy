// One room of the question game as a state machine, and what it keeps: a
// leader, players on both sides, and the course of the questions.

module AskTable {

  const NOBODY := -1
  const ROOM_CAPACITY := 8

  /** How many questions a room is given for a game. */
  const QUESTION_COUNT := 20

  /** A delayed call, with the generation code it was queued under. */
  datatype Task =
    | GameStart(code: int)
    | GameQuestion(code: int)

  /** `turn` is the side to answer, `question` the number of the question, `questions` how many there are. */
  datatype Room = Room(
    seats: seq<int>,
    running: bool,
    team: bool,
    leader: int,
    turn: int,
    question: int,
    questions: nat,
    code: int,
    tasks: seq<Task>)

  datatype Event =
    | Join(client: int)
    | Leave(client: int)
    | Begin(filled: bool)                             // the leader starts the game, all others being ready
    | Fire(index: int)                                // a queued task is called
    | Answer(client: int, question: int, key: int)

  predicate Formed(r: Room)
  {
    |r.seats| == ROOM_CAPACITY && -1 <= r.leader < ROOM_CAPACITY && -1 <= r.turn < ROOM_CAPACITY
  }

  predicate Empty(seats: seq<int>)
  {
    forall p :: 0 <= p < |seats| ==> seats[p] == NOBODY
  }

  /** All seats of one side, 0 or 1, are free. */
  predicate SideEmpty(seats: seq<int>, side: int)
    requires |seats| == ROOM_CAPACITY && 0 <= side <= 1
  {
    seats[side] == NOBODY && seats[side + 2] == NOBODY && seats[side + 4] == NOBODY && seats[side + 6] == NOBODY
  }

  /** The number of players of one side. */
  function SideCount(seats: seq<int>, side: int): nat
  {
    if seats == [] then 0
    else
      var last := |seats| - 1;
      SideCount(seats[..last], side) + if last % 2 == side && seats[last] != NOBODY then 1 else 0
  }

  function Players(seats: seq<int>): nat
  {
    SideCount(seats, 0) + SideCount(seats, 1)
  }

  function IndexFrom(seats: seq<int>, client: int, i: nat): (p: int)
    requires i <= |seats|
    ensures p == -1 <==> client !in seats[i..]
    ensures p != -1 ==> i <= p < |seats| && seats[p] == client && client !in seats[i..p]
    decreases |seats| - i
  {
    if i == |seats| then -1 else if seats[i] == client then i else IndexFrom(seats, client, i + 1)
  }

  /** The first seat with this client, or -1. */
  function SeatOf(seats: seq<int>, client: int): int
  {
    IndexFrom(seats, client, 0)
  }

  /** The seat the loops find: the first taken one of seven, from `curr` on in a circle, or -1. */
  function FindFrom(seats: seq<int>, curr: nat, n: nat): (p: int)
    requires |seats| == ROOM_CAPACITY && n <= ROOM_CAPACITY - 1
    ensures p == -1 || (0 <= p < ROOM_CAPACITY && seats[p] != NOBODY)
    decreases ROOM_CAPACITY - n
  {
    if n == ROOM_CAPACITY - 1 then -1
    else if seats[curr % ROOM_CAPACITY] != NOBODY then curr % ROOM_CAPACITY
    else FindFrom(seats, curr % ROOM_CAPACITY + 1, n + 1)
  }

  /** The seven seats are all but the one before the first, so nobody else is overlooked. */
  lemma FindsAnother(seats: seq<int>, p: nat, q: nat)
    requires |seats| == ROOM_CAPACITY && p < ROOM_CAPACITY && q < ROOM_CAPACITY && q != p && seats[q] != NOBODY
    ensures FindFrom(seats, p + 1, 0) != -1
  {
    FindsWithin(seats, p + 1, 0, if q > p then q - p - 1 else q + ROOM_CAPACITY - p - 1);
  }

  /** The client `i` seats on from `curr`, in a circle. */
  function Around(seats: seq<int>, curr: nat, i: nat): int
    requires |seats| == ROOM_CAPACITY
  {
    seats[(curr + i) % ROOM_CAPACITY]
  }

  lemma SeatOn(curr: nat, i: nat)
    requires curr <= ROOM_CAPACITY
    ensures (curr % ROOM_CAPACITY + 1 + i) % ROOM_CAPACITY == (curr + 1 + i) % ROOM_CAPACITY
  {
    if curr == ROOM_CAPACITY {
      assert (ROOM_CAPACITY + (1 + i)) % ROOM_CAPACITY == (1 + i) % ROOM_CAPACITY;
    }
  }

  lemma AroundNext(seats: seq<int>, curr: nat, i: nat)
    requires |seats| == ROOM_CAPACITY && curr <= ROOM_CAPACITY
    ensures Around(seats, curr % ROOM_CAPACITY + 1, i) == Around(seats, curr, i + 1)
  {
    SeatOn(curr, i);
  }

  /** The seat found is the first that is taken: all between the start and it are free. */
  lemma {:induction false} FindsFirst(seats: seq<int>, curr: nat, n: nat, d: nat)
    requires |seats| == ROOM_CAPACITY && n + d < ROOM_CAPACITY - 1 && curr <= ROOM_CAPACITY
    requires Around(seats, curr, d) != NOBODY && forall i :: 0 <= i < d ==> Around(seats, curr, i) == NOBODY
    ensures FindFrom(seats, curr, n) == (curr + d) % ROOM_CAPACITY
    decreases d
  {
    if d > 0 {
      assert Around(seats, curr, 0) == NOBODY;
      var next := curr % ROOM_CAPACITY + 1;
      forall i: nat | i < d
        ensures Around(seats, next, i) == Around(seats, curr, i + 1)
      {
        AroundNext(seats, curr, i);
      }
      SeatOn(curr, d - 1);
      hide Around;
      FindsFirst(seats, next, n + 1, d - 1);
    }
  }

  lemma {:induction false} FindsWithin(seats: seq<int>, curr: nat, n: nat, d: nat)
    requires |seats| == ROOM_CAPACITY && n + d < ROOM_CAPACITY - 1 && curr <= ROOM_CAPACITY
    requires seats[(curr + d) % ROOM_CAPACITY] != NOBODY
    ensures FindFrom(seats, curr, n) != -1
    decreases d
  {
    if d > 0 && seats[curr % ROOM_CAPACITY] == NOBODY {
      FindsWithin(seats, curr % ROOM_CAPACITY + 1, n + 1, d - 1);
    }
  }

  // ------------------------------------------------------------------------- the steps

  /** The game is over; a leader that has gone is replaced. */
  function Stopped(r: Room): Room
    requires Formed(r)
  {
    var s := r.(running := false);
    if r.leader != -1 && r.seats[r.leader] != NOBODY then s
    else
      var p := FindFrom(r.seats, r.leader + 1, 0);
      if p == -1 then s else s.(leader := p)
  }

  function LeaveRoom(r: Room, p: nat): Room
    requires Formed(r) && p < ROOM_CAPACITY
  {
    var s := r.(seats := r.seats[p := NOBODY]);
    if r.running then
      if r.team then if SideEmpty(s.seats, p % 2) then Stopped(s) else s
      else if Players(s.seats) < 2 then Stopped(s)
      else s
    else if p == r.leader then s.(leader := FindFrom(s.seats, p + 1, 0))
    else s
  }

  predicate CanJoin(r: Room)
  {
    !r.running && NOBODY in r.seats
  }

  function JoinRoom(r: Room, client: int): Room
    requires CanJoin(r)
  {
    var p := SeatOf(r.seats, NOBODY);
    r.(seats := r.seats[p := client], leader := if r.leader == -1 then p else r.leader)
  }

  /** The questions of the room after it was given some more, if there are any. */
  function Filled(r: Room, filled: bool): nat
  {
    r.questions + if filled then QUESTION_COUNT else 0
  }

  predicate CanBegin(r: Room, filled: bool)
    requires Formed(r)
  {
    && !r.running && r.leader != -1 && r.seats[r.leader] != NOBODY && SideCount(r.seats, 0) == SideCount(r.seats, 1)
    && Filled(r, filled) >= QUESTION_COUNT
  }

  /** A task is queued under a new code. */
  function Queued(r: Room, task: Task): Room
  {
    r.(code := task.code, tasks := r.tasks + [task])
  }

  function BeginGame(r: Room, filled: bool): Room
  {
    Queued(r.(running := true, turn := -1, question := -1, questions := Filled(r, filled)), GameStart(r.code + 1))
  }

  /** Whether a task called now does anything. */
  predicate Effective(r: Room, task: Task)
  {
    task.code == r.code && r.running && (task.GameStart? ==> r.questions > 0)
  }

  function Removed(r: Room, index: int): Room
    requires 0 <= index < |r.tasks|
  {
    r.(tasks := r.tasks[..index] + r.tasks[index + 1..])
  }

  function Call(r: Room, task: Task): Room
  {
    match task
    case GameStart(_) => Queued(r.(turn := -1), GameQuestion(r.code + 1))
    case GameQuestion(_) => r.(turn := 0, question := r.question + 1)
  }

  predicate CanAnswer(r: Room, client: int, question: int, key: int)
    requires Formed(r)
  {
    && client != NOBODY && r.running && SeatOf(r.seats, client) != -1 && SeatOf(r.seats, client) % 2 == r.turn
    && question == r.question && 0 <= question < r.questions && key >= 0
  }

  /** The next to answer: the other side, or the next seat if it is taken. */
  function MovedOn(r: Room): Room
    requires Formed(r)
  {
    if r.team then r.(turn := (r.turn + 1) % 2)
    else if r.seats[(r.turn + 1) % ROOM_CAPACITY] != NOBODY then r.(turn := (r.turn + 1) % ROOM_CAPACITY)
    else r
  }

  /** With the answer to the last question the game is over. */
  function AnswerQuestion(r: Room): Room
    requires Formed(r)
  {
    if r.question < r.questions - 1 then MovedOn(r.(question := r.question + 1)) else Stopped(r)
  }

  function Step(r: Room, e: Event): Room
    requires Formed(r)
  {
    match e
    case Join(c) => if CanJoin(r) && c != NOBODY then JoinRoom(r, c) else r
    case Leave(c) =>
      if c != NOBODY && SeatOf(r.seats, c) != -1 then LeaveRoom(r, SeatOf(r.seats, c)) else r
    case Begin(filled) => if CanBegin(r, filled) then BeginGame(r, filled) else r
    case Fire(i) =>
      if !(0 <= i < |r.tasks|) then r
      else if !Effective(r, r.tasks[i]) then Removed(r, i)
      else Call(Removed(r, i), r.tasks[i])
    case Answer(c, question, key) => if CanAnswer(r, c, question, key) then AnswerQuestion(r) else r
  }

  function NewRoom(team: bool): Room
  {
    Room([NOBODY, NOBODY, NOBODY, NOBODY, NOBODY, NOBODY, NOBODY, NOBODY], false, team, -1, -1, -1, 0, 0, [])
  }

  // --------------------------------------------------------------------- what it keeps

  /** A running room has players on both sides, a waiting one has a leader in its seat unless it is empty. */
  predicate Led(r: Room)
  {
    && Formed(r)
    && if r.running then
         && r.leader != -1
         && (if r.team then !SideEmpty(r.seats, 0) && !SideEmpty(r.seats, 1) else Players(r.seats) >= 2)
       else if r.leader == -1 then Empty(r.seats)
       else r.seats[r.leader] != NOBODY
  }

  /** An empty room waits without a leader. */
  lemma EmptyRoom(r: Room)
    requires Led(r) && Empty(r.seats)
    ensures !r.running && r.leader == -1
  {
    if r.running { NoPlayers(r.seats); }
  }

  lemma {:induction false} NoPlayers(seats: seq<int>)
    requires Empty(seats)
    ensures Players(seats) == 0
  {
    if seats != [] { NoPlayers(seats[..|seats| - 1]); }
  }

  lemma {:induction false} SomePlayer(seats: seq<int>, p: nat)
    requires p < |seats| && seats[p] != NOBODY
    ensures SideCount(seats, p % 2) >= 1
  {
    if p < |seats| - 1 { SomePlayer(seats[..|seats| - 1], p); }
  }

  lemma {:induction false} PlayerOnSide(seats: seq<int>, side: int) returns (p: nat)
    requires 0 <= side <= 1 && SideCount(seats, side) >= 1
    ensures p < |seats| && p % 2 == side && seats[p] != NOBODY
  {
    var last := |seats| - 1;
    if last % 2 == side && seats[last] != NOBODY {
      p := last;
    } else {
      p := PlayerOnSide(seats[..last], side);
    }
  }

  /** A game that starts has a player on either side. */
  lemma BeginsOnBothSides(r: Room, filled: bool)
    requires Formed(r) && CanBegin(r, filled)
    ensures !SideEmpty(r.seats, 0) && !SideEmpty(r.seats, 1) && Players(r.seats) >= 2
  {
    SomePlayer(r.seats, r.leader);
    var p := PlayerOnSide(r.seats, 0);
    var q := PlayerOnSide(r.seats, 1);
  }

  /** With a player left, the game ends with a leader in its seat. */
  lemma StopsWithLeader(r: Room, q: nat)
    requires Formed(r) && r.leader != -1 && q < ROOM_CAPACITY && r.seats[q] != NOBODY
    ensures Led(Stopped(r))
  {
    if r.seats[r.leader] == NOBODY { FindsAnother(r.seats, r.leader, q); }
  }

  lemma LeaveWaiting(r: Room, p: nat)
    requires Led(r) && !r.running && p < ROOM_CAPACITY && r.seats[p] != NOBODY
    ensures Led(LeaveRoom(r, p))
  {
    var seats := r.seats[p := NOBODY];
    if p == r.leader && FindFrom(seats, p + 1, 0) == -1 {
      forall q | 0 <= q < ROOM_CAPACITY
        ensures seats[q] == NOBODY
      {
        if seats[q] != NOBODY { FindsAnother(seats, p, q); }
      }
    }
  }

  lemma {:induction false} OneLess(seats: seq<int>, p: nat, side: int)
    requires p < |seats| && seats[p] != NOBODY
    ensures SideCount(seats[p := NOBODY], side) == SideCount(seats, side) - if p % 2 == side then 1 else 0
  {
    var last := |seats| - 1;
    if p < last {
      assert seats[p := NOBODY][..last] == seats[..last][p := NOBODY];
      OneLess(seats[..last], p, side);
    } else {
      assert seats[p := NOBODY][..last] == seats[..last];
    }
  }

  lemma SomeoneOnSide(seats: seq<int>, side: int) returns (q: nat)
    requires |seats| == ROOM_CAPACITY && 0 <= side <= 1 && !SideEmpty(seats, side)
    ensures q < ROOM_CAPACITY && seats[q] != NOBODY
  {
    q := if seats[side] != NOBODY then side else if seats[side + 2] != NOBODY then side + 2
         else if seats[side + 4] != NOBODY then side + 4 else side + 6;
  }

  lemma LeaveTeam(r: Room, p: nat)
    requires Led(r) && r.running && r.team && p < ROOM_CAPACITY && r.seats[p] != NOBODY
    ensures Led(LeaveRoom(r, p))
  {
    var s := r.(seats := r.seats[p := NOBODY]);
    assert SideEmpty(s.seats, 1 - p % 2) ==> SideEmpty(r.seats, 1 - p % 2);
    if SideEmpty(s.seats, p % 2) {
      var q := SomeoneOnSide(s.seats, 1 - p % 2);
      StopsWithLeader(s, q);
    }
  }

  lemma LeaveAlone(r: Room, p: nat)
    requires Led(r) && r.running && !r.team && p < ROOM_CAPACITY && r.seats[p] != NOBODY
    ensures Led(LeaveRoom(r, p))
  {
    var s := r.(seats := r.seats[p := NOBODY]);
    OneLess(r.seats, p, 0);
    OneLess(r.seats, p, 1);
    if Players(s.seats) < 2 {
      var q := PlayerOnSide(s.seats, if SideCount(s.seats, 0) >= 1 then 0 else 1);
      StopsWithLeader(s, q);
    }
  }

  lemma AnswerKeeps(r: Room)
    requires Led(r) && r.running
    ensures Led(AnswerQuestion(r))
  {
    if r.question >= r.questions - 1 {
      if r.team {
        var q := SomeoneOnSide(r.seats, 0);
        StopsWithLeader(r, q);
      } else {
        var q := PlayerOnSide(r.seats, if SideCount(r.seats, 0) >= 1 then 0 else 1);
        StopsWithLeader(r, q);
      }
    }
  }

  lemma JoinKeeps(r: Room, client: int)
    requires Led(r) && CanJoin(r) && client != NOBODY
    ensures Led(JoinRoom(r, client))
  {
    assert r.seats[0..] == r.seats;
  }

  lemma StepKeeps(r: Room, e: Event)
    requires Led(r)
    ensures Led(Step(r, e))
  {
    hide Players, SideCount, SideEmpty, FindFrom, Stopped;
    match e {
      case Join(c) => if CanJoin(r) && c != NOBODY { JoinKeeps(r, c); }
      case Leave(c) =>
        var p := SeatOf(r.seats, c);
        if c != NOBODY && p != -1 {
          if !r.running { LeaveWaiting(r, p); } else if r.team { LeaveTeam(r, p); } else { LeaveAlone(r, p); }
        }
      case Begin(filled) => if CanBegin(r, filled) { BeginsOnBothSides(r, filled); }
      case Answer(c, question, key) => if CanAnswer(r, c, question, key) { AnswerKeeps(r); }
      case _ =>
    }
  }

  // --------------------------------------------------------------- the course of a game

  /** `answers` are the seats that have answered since the game began, `fills` how often the room got questions. */
  datatype Game = Game(answers: seq<int>, fills: nat)

  /** The story goes on with an event. */
  function Track(g: Game, r: Room, e: Event): Game
    requires Formed(r)
  {
    match e
    case Begin(filled) =>
      if CanBegin(r, filled) then Game([], g.fills + if filled then 1 else 0) else g
    case Answer(c, question, key) =>
      if CanAnswer(r, c, question, key) then g.(answers := g.answers + [SeatOf(r.seats, c)]) else g
    case _ => g
  }

  /** Codes rise in the order of queueing, up to the code of the room. */
  ghost predicate CodesRise(r: Room)
  {
    && (forall i :: 0 <= i < |r.tasks| ==> r.tasks[i].code <= r.code)
    && (forall i, j :: 0 <= i < j < |r.tasks| ==> r.tasks[i].code < r.tasks[j].code)
  }

  /** The last task queued will not be turned away for its code. */
  predicate Alive(r: Room)
  {
    r.tasks != [] && r.tasks[|r.tasks| - 1].code == r.code
  }

  /** The sides answer in turn, the side 0 first. */
  ghost predicate InTurn(answers: seq<int>)
  {
    forall i :: 0 <= i < |answers| ==> answers[i] % 2 == i % 2
  }

  /**
   * The course of a running game: nothing is answered while its start or its first question is queued, and then
   * as many questions have been answered as the number of the one asked says.
   */
  ghost predicate Course(r: Room, g: Game)
  {
    && r.questions >= QUESTION_COUNT && (r.team ==> InTurn(g.answers))
    && if Alive(r) then r.turn == -1 && r.question == -1 && g.answers == []
       else r.question == |g.answers| < r.questions && 0 <= r.turn && (r.team ==> r.turn == |g.answers| % 2)
  }

  ghost predicate Inv(r: Room, g: Game)
  {
    Led(r) && CodesRise(r) && r.questions == QUESTION_COUNT * g.fills && (r.running ==> Course(r, g))
  }

  /** Among the queued tasks at most the last carries the current code. */
  lemma OnlyLastAlive(r: Room, i: nat)
    requires CodesRise(r) && i < |r.tasks|
    ensures r.tasks[i].code == r.code ==> i == |r.tasks| - 1 && Alive(r)
  {
    var last := |r.tasks| - 1;
    if i < last {
      assert r.tasks[i].code < r.tasks[last].code <= r.code;
    }
  }

  lemma RemovedTask(r: Room, i: nat)
    requires CodesRise(r) && i < |r.tasks|
    ensures CodesRise(Removed(r, i))
    ensures r.tasks[i].code == r.code ==> !Alive(Removed(r, i))
    ensures r.tasks[i].code != r.code ==> (Alive(Removed(r, i)) <==> Alive(r))
  {
    var u := Removed(r, i);
    if u.tasks != [] {
      var last := |u.tasks| - 1;
      assert u.tasks[last] == if i == |r.tasks| - 1 then r.tasks[i - 1] else r.tasks[|r.tasks| - 1];
    }
  }

  lemma FireCourse(r: Room, g: Game, i: nat)
    requires Inv(r, g) && i < |r.tasks|
    ensures CodesRise(Step(r, Fire(i))) && (r.running ==> Course(Step(r, Fire(i)), g))
  {
    hide Led, InTurn;
    RemovedTask(r, i);
    OnlyLastAlive(r, i);
  }

  lemma AnswerCourse(r: Room, g: Game, c: int, question: int, key: int)
    requires Inv(r, g) && CanAnswer(r, c, question, key) && AnswerQuestion(r).running
    ensures Course(AnswerQuestion(r), Track(g, r, Answer(c, question, key)))
  {
    hide Led, CodesRise, SeatOf;
  }

  /** What the other events leave as it is, as long as the game runs. */
  lemma QuietCourse(r: Room, e: Event)
    requires Led(r) && (e.Join? || e.Leave?)
    ensures var s := Step(r, e);
      && s.questions == r.questions && s.question == r.question && s.turn == r.turn && s.team == r.team
      && s.code == r.code && s.tasks == r.tasks && (s.running ==> r.running)
  {
    hide Players, SideCount, SideEmpty, FindFrom, SeatOf;
  }

  /** Every event keeps the course. */
  lemma CourseKeeps(r: Room, g: Game, e: Event)
    requires Inv(r, g)
    ensures Inv(Step(r, e), Track(g, r, e))
  {
    StepKeeps(r, e);
    hide Led, CanAnswer, CanBegin, InTurn;
    match e {
      case Fire(i) => if 0 <= i < |r.tasks| { FireCourse(r, g, i); }
      case Answer(c, question, key) =>
        if CanAnswer(r, c, question, key) && AnswerQuestion(r).running { AnswerCourse(r, g, c, question, key); }
      case Begin(_) =>
      case _ => QuietCourse(r, e);
    }
  }

  /** The room after the events. */
  function After(r: Room, es: seq<Event>): (s: Room)
    requires Led(r)
    ensures Led(s)
  {
    if es == [] then r
    else
      var before := After(r, es[..|es| - 1]);
      StepKeeps(before, es[|es| - 1]);
      Step(before, es[|es| - 1])
  }

  /** The story of its game. */
  ghost function Story(r: Room, g: Game, es: seq<Event>): Game
    requires Led(r)
  {
    if es == [] then g
    else
      var init := es[..|es| - 1];
      Track(Story(r, g, init), After(r, init), es[|es| - 1])
  }

  lemma {:induction false} RunKeeps(r: Room, g: Game, es: seq<Event>)
    requires Inv(r, g)
    ensures Inv(After(r, es), Story(r, g, es))
  {
    hide Inv, Step, Track;
    InvLed(r, g);
    if es != [] {
      var init := es[..|es| - 1];
      RunKeeps(r, g, init);
      CourseKeeps(After(r, init), Story(r, g, init), es[|es| - 1]);
    }
  }

  lemma InvLed(r: Room, g: Game)
    requires Inv(r, g)
    ensures Led(r)
  {
  }

  /** The state and the story of a room made new, after the events. */
  ghost predicate Reached(es: seq<Event>, r: Room, g: Game)
  {
    var room := NewRoom(r.team);
    Led(room) && r == After(room, es) && g == Story(room, Game([], 0), es)
  }

  lemma ReachedInv(es: seq<Event>, r: Room, g: Game)
    requires Reached(es, r, g)
    ensures Inv(r, g)
  {
    RunKeeps(NewRoom(r.team), Game([], 0), es);
  }

  lemma NothingYet(team: bool)
    ensures Reached([], NewRoom(team), Game([], 0))
  {
  }

  lemma AfterOne(r: Room, g: Game, es: seq<Event>, e: Event)
    requires Led(r)
    ensures After(r, es + [e]) == Step(After(r, es), e)
    ensures Story(r, g, es + [e]) == Track(Story(r, g, es), After(r, es), e)
  {
    hide Step, Track;
    var more := es + [e];
    assert more[..|more| - 1] == es && more[|more| - 1] == e;
  }

  lemma ReachedOn(es: seq<Event>, r: Room, g: Game, e: Event)
    requires Reached(es, r, g)
    ensures Formed(r) && Reached(es + [e], Step(r, e), Track(g, r, e))
  {
    ReachedInv(es, r, g);
    SameTeam(r, e);
    AfterOne(NewRoom(r.team), Game([], 0), es, e);
  }

  /** Some events lead from a new room to this one. */
  ghost predicate Reachable(r: Room)
  {
    exists es, g :: Reached(es, r, g)
  }

  lemma NewReachable(team: bool)
    ensures Reachable(NewRoom(team))
  {
    NothingYet(team);
  }

  lemma ReachableOn(r: Room, e: Event)
    requires Reachable(r)
    ensures Formed(r) && Reachable(Step(r, e))
  {
    hide Reached, Step, Track;
    var es, g :| Reached(es, r, g);
    ReachedOn(es, r, g, e);
  }

  lemma SameTeam(r: Room, e: Event)
    requires Formed(r)
    ensures Step(r, e).team == r.team
  {
  }

  /**
   * On every run an answer that is taken is given to the question whose number is that of the answers before it, in
   * team mode by the sides in turn. It ends the game exactly if it answers the last question; else the next one is
   * asked, in team mode of the other side, and nothing else changes.
   */
  lemma AnswerLeadsOn(es: seq<Event>, r: Room, g: Game, c: int, question: int, key: int)
    requires Reached(es, r, g) && Formed(r) && CanAnswer(r, c, question, key)
    ensures question == |g.answers| < r.questions && (r.team ==> SeatOf(r.seats, c) % 2 == |g.answers| % 2)
    ensures var s := Step(r, Answer(c, question, key));
      && (!s.running <==> |g.answers| + 1 == r.questions)
      && (s.running ==> s == r.(question := question + 1, turn := s.turn) && (r.team ==> s.turn == 1 - r.turn))
  {
    hide Led, CodesRise, SeatOf, Reached, FindFrom;
    ReachedInv(es, r, g);
  }

  /** In every game a room has as many questions as it was given in all its games. */
  lemma QuestionsKept(es: seq<Event>, r: Room, g: Game)
    requires Reached(es, r, g)
    ensures r.questions == QUESTION_COUNT * g.fills
    ensures r.running ==> (r.questions == QUESTION_COUNT <==> g.fills == 1) && g.fills > 0
  {
    hide Led, CodesRise, Reached;
    ReachedInv(es, r, g);
  }

  /** A running game ends exactly with the answer to the last question, or when its players no longer suffice. */
  lemma EndsExactly(r: Room, e: Event)
    requires Led(r) && r.running
    ensures !Step(r, e).running <==>
      || (e.Answer? && CanAnswer(r, e.client, e.question, e.key) && e.question + 1 == r.questions)
      || (e.Leave? && e.client != NOBODY && SeatOf(r.seats, e.client) != -1
          && TooFewWithout(r, SeatOf(r.seats, e.client)))
  {
    hide FindFrom, Players, SideCount, SideEmpty, SeatOf;
  }

  /** Without the player in the seat `p` its side is empty, or in the other mode only one player is left. */
  predicate TooFewWithout(r: Room, p: nat)
    requires Formed(r) && p < ROOM_CAPACITY
  {
    var seats := r.seats[p := NOBODY];
    if r.team then SideEmpty(seats, p % 2) else Players(seats) < 2
  }

  /** The game runs after each of the events. */
  ghost predicate GameLasts(r: Room, es: seq<Event>)
    requires Led(r)
  {
    After(r, es).running && (es == [] || GameLasts(r, es[..|es| - 1]))
  }

  /** The seats whose answers were taken. */
  ghost function AnswersTaken(r: Room, es: seq<Event>): seq<int>
    requires Led(r)
  {
    if es == [] then []
    else
      var init, e := es[..|es| - 1], es[|es| - 1];
      AnswersTaken(r, init) + if e.Answer? && CanAnswer(After(r, init), e.client, e.question, e.key)
                              then [SeatOf(After(r, init).seats, e.client)] else []
  }

  lemma {:induction false} StoryAnswers(r: Room, g: Game, es: seq<Event>)
    requires Led(r) && r.running && (es == [] || GameLasts(r, es[..|es| - 1]))
    ensures Story(r, g, es).answers == g.answers + AnswersTaken(r, es) && Story(r, g, es).fills == g.fills
  {
    hide Led, Step, CanAnswer, SeatOf;
    if es != [] {
      StoryAnswers(r, g, es[..|es| - 1]);
    }
  }

  lemma {:induction false} SameQuestions(r: Room, es: seq<Event>)
    requires Led(r) && r.running && (es == [] || GameLasts(r, es[..|es| - 1]))
    ensures After(r, es).questions == r.questions && After(r, es).team == r.team
  {
    hide Led, Step, CanAnswer, SeatOf;
    if es != [] {
      SameQuestions(r, es[..|es| - 1]);
      LedFormed(After(r, es[..|es| - 1]));
      StepQuestions(After(r, es[..|es| - 1]), es[|es| - 1]);
    }
  }

  lemma LedFormed(r: Room)
    requires Led(r)
    ensures Formed(r)
  {
  }

  lemma StepQuestions(r: Room, e: Event)
    requires Formed(r) && r.running
    ensures Step(r, e).questions == r.questions && Step(r, e).team == r.team
  {
  }

  lemma GameSoFar(s: Room, h: Game, later: seq<Event>)
    requires Inv(s, h) && s.team && s.running && h.answers == [] && GameLasts(s, later)
    ensures var t, k := After(s, later), Story(s, h, later);
      && Inv(t, k) && t.running && t.team && t.questions == s.questions
      && k.answers == AnswersTaken(s, later) && InTurn(k.answers) && |k.answers| < s.questions
  {
    hide Led, CodesRise, Step, SeatOf, InTurn;
    RunKeeps(s, h, later);
    StoryAnswers(s, h, later);
    SameQuestions(s, later);
  }

  lemma OneMore(t: Room, k: Game, e: Event)
    requires Inv(t, k) && t.running && t.team
    ensures Formed(t) && InTurn(Track(k, t, e).answers)
    ensures !Step(t, e).running ==> e.Leave? || |Track(k, t, e).answers| == t.questions
  {
    LedFormed(t);
    EndsExactly(t, e);
    hide Led, CodesRise, SeatOf, Step;
    BeganAlready(t, e);
  }

  lemma BeganAlready(t: Room, e: Event)
    requires Formed(t) && t.running
    ensures e.Begin? ==> !CanBegin(t, e.filled)
  {
  }

  /**
   * A whole game in team mode: as long as it lasts, fewer questions are answered than there are, by the sides in
   * turn; and if it does not end because a player leaves, each question was answered once.
   */
  lemma WholeGame(r: Room, g: Game, filled: bool, later: seq<Event>, e: Event)
    requires Inv(r, g) && r.team && CanBegin(r, filled) && Led(BeginGame(r, filled))
    requires GameLasts(BeginGame(r, filled), later)
    ensures var s := BeginGame(r, filled);
      && InTurn(AnswersTaken(s, later + [e])) && |AnswersTaken(s, later)| < s.questions
      && (!Step(After(s, later), e).running ==> e.Leave? || |AnswersTaken(s, later + [e])| == s.questions)
  {
    GameBegins(r, g, filled);
    hide Inv, Led, Step, Track, BeginGame, CanBegin, SeatOf, After, Story, InTurn, AnswersTaken;
    var s, h := BeginGame(r, filled), Track(g, r, Begin(filled));
    GameSoFar(s, h, later);
    OneMore(After(s, later), Story(s, h, later), e);
    AfterOne(s, h, later, e);
    assert (later + [e])[..|later|] == later;
    StoryAnswers(s, h, later + [e]);
  }

  lemma GameBegins(r: Room, g: Game, filled: bool)
    requires Inv(r, g) && CanBegin(r, filled)
    ensures var s := BeginGame(r, filled);
      Inv(s, Track(g, r, Begin(filled))) && s.running && s.team == r.team && Track(g, r, Begin(filled)).answers == []
  {
    CourseKeeps(r, g, Begin(filled));
  }

  /** Nobody has two seats. */
  predicate SeatsDiffer(seats: seq<int>)
  {
    forall p, q :: 0 <= p < q < |seats| && seats[p] != NOBODY ==> seats[p] != seats[q]
  }

  /** A game in team mode always goes on: the queued task takes effect, or someone can answer. */
  lemma GoesOn(r: Room, g: Game) returns (c: int)
    requires Inv(r, g) && r.running && r.team && SeatsDiffer(r.seats)
    ensures if Alive(r) then Effective(r, r.tasks[|r.tasks| - 1]) else CanAnswer(r, c, r.question, 0)
  {
    c := NOBODY;
    if !Alive(r) {
      var p := if r.seats[r.turn] != NOBODY then r.turn else if r.seats[r.turn + 2] != NOBODY then r.turn + 2
               else if r.seats[r.turn + 4] != NOBODY then r.turn + 4 else r.turn + 6;
      c := r.seats[p];
      assert c in r.seats[0..];
    }
  }

  // ------------------------------------------------------------------- a second game

  /** Two players begin a game and leave; two others begin one in the same room. */
  function TwoGames(): seq<Event>
  {
    [Join(1), Join(2), Begin(true), Leave(1), Leave(2), Join(3), Join(4), Begin(true)]
  }

  /** A room with at most these two players, in its first seats. */
  predicate Pair(r: Room, a: int, b: int, leader: int)
  {
    Formed(r) && r.team && r.seats == [a, b, NOBODY, NOBODY, NOBODY, NOBODY, NOBODY, NOBODY] && r.leader == leader
  }

  lemma FirstJoins(r: Room, a: int)
    requires Pair(r, NOBODY, NOBODY, -1) && !r.running && a != NOBODY
    ensures var s := Step(r, Join(a)); Pair(s, a, NOBODY, 0) && s == r.(seats := s.seats, leader := 0)
  {
    assert NOBODY in r.seats;
  }

  lemma SecondJoins(r: Room, a: int, b: int)
    requires Pair(r, a, NOBODY, 0) && !r.running && a != NOBODY && b != NOBODY
    ensures var s := Step(r, Join(b)); Pair(s, a, b, 0) && s == r.(seats := s.seats)
  {
    assert r.seats[1] == NOBODY;
  }

  lemma SideCountNext(seats: seq<int>, i: nat, side: int)
    requires i < |seats|
    ensures SideCount(seats[..i + 1], side) ==
      SideCount(seats[..i], side) + if i % 2 == side && seats[i] != NOBODY then 1 else 0
  {
    assert seats[..i + 1][..i] == seats[..i];
  }

  lemma OnePerSide(r: Room, a: int, b: int)
    requires Pair(r, a, b, 0) && a != NOBODY && b != NOBODY
    ensures SideCount(r.seats, 0) == SideCount(r.seats, 1)
  {
    assert r.seats[..8] == r.seats && SideCount(r.seats[..0], 0) == SideCount(r.seats[..0], 1);
    hide SideCount;
    for i := 0 to 8
      invariant SideCount(r.seats[..i], 0) == SideCount(r.seats[..i], 1) + if i == 1 then 1 else 0
    {
      SideCountNext(r.seats, i, 0);
      SideCountNext(r.seats, i, 1);
    }
  }

  lemma PairBegins(r: Room, a: int, b: int)
    requires Pair(r, a, b, 0) && !r.running && a != NOBODY && b != NOBODY
    ensures var s := Step(r, Begin(true)); s == BeginGame(r, true) && CanBegin(r, true) && Pair(s, a, b, 0)
  {
    OnePerSide(r, a, b);
    hide SideCount;
  }

  lemma FirstLeaves(r: Room, a: int, b: int)
    requires Pair(r, a, b, 0) && r.running && a != NOBODY && b != NOBODY
    ensures var s := Step(r, Leave(a));
      Pair(s, NOBODY, b, 1) && s == r.(seats := s.seats, leader := 1, running := false)
  {
    assert SeatOf(r.seats, a) == 0;
    FindsFirst(r.seats[0 := NOBODY], 1, 0, 0);
    hide SeatOf, FindFrom;
  }

  lemma SecondSeat(seats: seq<int>, b: int)
    requires seats == [NOBODY, b, NOBODY, NOBODY, NOBODY, NOBODY, NOBODY, NOBODY] && b != NOBODY
    ensures SeatOf(seats, b) == 1 && seats[1 := NOBODY] == NewRoom(true).seats
    ensures FindFrom(NewRoom(true).seats, 2, 0) == -1
  {
    assert IndexFrom(seats, b, 0) == 1;
  }

  lemma SecondLeaves(r: Room, b: int)
    requires Pair(r, NOBODY, b, 1) && !r.running && b != NOBODY
    ensures var s := Step(r, Leave(b)); Pair(s, NOBODY, NOBODY, -1) && s == r.(seats := s.seats, leader := -1)
  {
    hide SeatOf, FindFrom, Players, SideCount, SideEmpty, Stopped;
    SecondSeat(r.seats, b);
  }

  /** Two players come into an empty room and begin a game. */
  lemma PairPlays(es: seq<Event>, r: Room, g: Game, a: int, b: int) returns (s: Room, h: Game)
    requires Reached(es, r, g) && Pair(r, NOBODY, NOBODY, -1) && !r.running && a != NOBODY && b != NOBODY
    ensures Reached(es + [Join(a), Join(b), Begin(true)], s, h)
    ensures Pair(s, a, b, 0) && s.running && s.questions == r.questions + QUESTION_COUNT
    ensures h == Game([], g.fills + 1)
  {
    hide Reached, Step, Pair, CanBegin;
    FirstJoins(r, a);
    ReachedOn(es, r, g, Join(a));
    var r1 := Step(r, Join(a));
    SecondJoins(r1, a, b);
    ReachedOn(es + [Join(a)], r1, g, Join(b));
    var r2 := Step(r1, Join(b));
    PairBegins(r2, a, b);
    ReachedOn(es + [Join(a)] + [Join(b)], r2, g, Begin(true));
    s, h := Step(r2, Begin(true)), Track(g, r2, Begin(true));
    assert es + [Join(a)] + [Join(b)] + [Begin(true)] == es + [Join(a), Join(b), Begin(true)];
  }

  /** They leave it. */
  lemma PairGoes(es: seq<Event>, r: Room, g: Game, a: int, b: int) returns (s: Room)
    requires Reached(es, r, g) && Pair(r, a, b, 0) && r.running && a != NOBODY && b != NOBODY
    ensures Reached(es + [Leave(a), Leave(b)], s, g)
    ensures Pair(s, NOBODY, NOBODY, -1) && !s.running && s.questions == r.questions
  {
    hide Reached, Step, Pair;
    FirstLeaves(r, a, b);
    ReachedOn(es, r, g, Leave(a));
    var r1 := Step(r, Leave(a));
    SecondLeaves(r1, b);
    ReachedOn(es + [Leave(a)], r1, g, Leave(b));
    s := Step(r1, Leave(b));
    assert es + [Leave(a)] + [Leave(b)] == es + [Leave(a), Leave(b)];
  }

  /** Such a second game has forty questions, and asks them all if nobody leaves. */
  lemma SecondGame() returns (r: Room, g: Game)
    ensures Reached(TwoGames(), r, g) && r.running && r.team && r.questions == 40 && g == Game([], 2)
  {
    hide Reached;
    NothingYet(true);
    var r1, g1 := PairPlays([], NewRoom(true), Game([], 0), 1, 2);
    var played := [Join(1), Join(2), Begin(true)];
    assert [] + played == played;
    var r2 := PairGoes(played, r1, g1, 1, 2);
    var gone := played + [Leave(1), Leave(2)];
    r, g := PairPlays(gone, r2, g1, 3, 4);
    assert gone + [Join(3), Join(4), Begin(true)] == TwoGames();
  }

  /** Without teams it does not: with the first three seats taken nobody can answer the third question. */
  lemma AloneStalls(r: Room, c: int, question: int, key: int)
    requires Formed(r) && !r.team && r.turn == 1 && r.seats[2] != NOBODY
    requires CanAnswer(r, c, question, key) && question + 1 < r.questions
    ensures var s := Step(r, Answer(c, question, key));
      s.running && forall d, q, k :: !CanAnswer(s, d, q, k)
  {
  }

  /** Over every run: a running room has players, on both sides in team mode; a waiting one has a leader or is empty. */
  lemma EveryRun(team: bool, es: seq<Event>)
    ensures Led(NewRoom(team))
    ensures var r := After(NewRoom(team), es);
      && (r.running && r.team ==> !SideEmpty(r.seats, 0) && !SideEmpty(r.seats, 1))
      && (!r.running && !Empty(r.seats) ==> r.leader != -1 && r.seats[r.leader] != NOBODY)
      && (Empty(r.seats) ==> !r.running && r.leader == -1)
  {
    var r := After(NewRoom(team), es);
    if Empty(r.seats) { EmptyRoom(r); }
  }
}
