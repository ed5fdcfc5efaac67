// What holds at a desk after any events whatever: the main results on the
// rounds of the game.

module DdzRuns {
  import opened PokerInfo
  import opened Cards
  import opened Patterns
  import opened BeatsOrder
  import opened PokerFinder
  import opened BigFinder
  import opened Deck
  import opened DdzTable
  import opened DdzRound
  import Auction
  import ChainSearch

  /** The desk after the events. */
  ghost function After(t: Table, es: seq<Event>): (u: Table)
    requires Formed(t)
    ensures Formed(u)
  {
    if es == [] then t
    else
      var before := After(t, es[..|es| - 1]);
      StepFormed(before, es[|es| - 1]);
      Step(before, es[|es| - 1])
  }

  /** The story of its round. */
  ghost function Story(t: Table, r: Round, es: seq<Event>): Round
    requires Formed(t)
  {
    if es == [] then r
    else
      var init := es[..|es| - 1];
      Track(Story(t, r, init), After(t, init), es[|es| - 1])
  }

  lemma {:induction false} RunKeeps(t: Table, r: Round, es: seq<Event>)
    requires Inv(t, r)
    ensures Inv(After(t, es), Story(t, r, es))
  {
    hide Inv, Step, Track;
    InvFormed(t, r);
    if es != [] {
      var init := es[..|es| - 1];
      RunKeeps(t, r, init);
      StepKeeps(After(t, init), Story(t, r, init), es[|es| - 1]);
    }
  }

  lemma InvFormed(t: Table, r: Round)
    requires Inv(t, r)
    ensures Formed(t)
  {
  }

  /** The state of a desk made new, after the events. */
  ghost predicate ComesTo(es: seq<Event>, t: Table)
  {
    Formed(t) && t == After(NewTable(), es)
  }

  /** The state and the story of a desk made new, after the events. */
  ghost predicate Reached(es: seq<Event>, t: Table, r: Round)
  {
    ComesTo(es, t) && r == StoryOf(es)
  }

  lemma NewInv()
    ensures Inv(NewTable(), FreshRound(0, -1))
  {
    hide DeskPokers;
  }

  /** The invariants hold after any events. */
  lemma EveryRun(es: seq<Event>, t: Table, r: Round)
    requires Reached(es, t, r)
    ensures Inv(t, r)
  {
    hide Inv, After, Story;
    NewInv();
    RunKeeps(NewTable(), FreshRound(0, -1), es);
  }

  ghost function StoryOf(es: seq<Event>): Round
  {
    Story(NewTable(), FreshRound(0, -1), es)
  }

  lemma NothingYet()
    ensures ComesTo([], NewTable()) && Reached([], NewTable(), FreshRound(0, -1))
  {
    hide DeskPokers;
  }

  lemma AfterOne(t: Table, r: Round, es: seq<Event>, e: Event)
    requires Formed(t)
    ensures After(t, es + [e]) == Step(After(t, es), e)
    ensures Story(t, r, es + [e]) == Track(Story(t, r, es), After(t, es), e)
  {
    hide Step, Track;
    var more := es + [e];
    assert more[..|more| - 1] == es && more[|more| - 1] == e;
  }

  /** One more event. */
  lemma ReachedOn(es: seq<Event>, t: Table, r: Round, e: Event)
    requires Reached(es, t, r)
    ensures Reached(es + [e], Step(t, e), Track(r, t, e))
  {
    hide Step, Track, After, Story;
    StepFormed(t, e);
    AfterOne(NewTable(), FreshRound(0, -1), es, e);
  }

  lemma ComesOn(es: seq<Event>, t: Table, e: Event)
    requires ComesTo(es, t)
    ensures ComesTo(es + [e], Step(t, e))
  {
    ReachedOn(es, t, StoryOf(es), e);
  }

  // ----------------------------------------------------------------- generation codes

  /** At most one of the queued tasks carries the current code, and the codes of the queue differ. */
  lemma OneTaskAlive(es: seq<Event>, t: Table, r: Round, i: nat, j: nat)
    requires Reached(es, t, r) && i < j < |t.tasks|
    ensures t.tasks[i].code < t.tasks[j].code <= t.code
  {
    hide Step, Track, After, Story;
    EveryRun(es, t, r);
  }

  /**
   * Once the landlord of a running round is chosen, no queued deal and no queued opening of the auction
   * does anything; and when the bottom cards are out, no queued task does, so they are given out once.
   */
  lemma DecidedStays(es: seq<Event>, t: Table, r: Round, i: nat, rand: nat -> nat)
    requires Reached(es, t, r) && i < |t.tasks| && t.running && t.landlord != NOBODY
    ensures !t.tasks[i].GameLandlord? ==> Step(t, Fire(i, rand)) == Removed(t, i)
    ensures r.bottomOut ==> Step(t, Fire(i, rand)) == Removed(t, i)
    ensures !r.bottomOut ==> exists j :: 0 <= j < |t.tasks| && t.tasks[j] == GameLandlord(t.landlord, t.code)
  {
    hide After, Story, CardsKept, Lead, Auctioned;
    EveryRun(es, t, r);
    if t.tasks[i].code == t.code { OnlyLastAlive(t, i); }
  }

  lemma {:induction false} CodeGrows(t: Table, es: seq<Event>)
    requires Formed(t) && CodesRise(t)
    ensures CodesRise(After(t, es)) && t.code <= After(t, es).code
  {
    hide Step, CodesRise;
    if es != [] {
      CodeGrows(t, es[..|es| - 1]);
      CodesKept(After(t, es[..|es| - 1]), es[|es| - 1]);
    }
  }

  /** A task that was queued before a round began does nothing at any time after that. */
  lemma AbandonedTask(es: seq<Event>, t: Table, r: Round, task: Task, later: seq<Event>, i: nat, rand: nat -> nat)
    requires Reached(es, t, r) && CanBegin(t) && task in t.tasks
    requires i < |After(BeginRound(t), later).tasks| && After(BeginRound(t), later).tasks[i] == task
    ensures Step(After(BeginRound(t), later), Fire(i, rand)) == Removed(After(BeginRound(t), later), i)
  {
    hide Inv, Story, After;
    EveryRun(es, t, r);
    BeganLater(t, r, task);
    CodeGrows(BeginRound(t), later);
  }

  lemma BeganLater(t: Table, r: Round, task: Task)
    requires Inv(t, r) && CanBegin(t) && task in t.tasks
    ensures Formed(BeginRound(t)) && CodesRise(BeginRound(t)) && task.code < BeginRound(t).code
  {
    hide Phase, CardsKept, Lead, Auctioned, Sound;
    StepFormed(t, Begin);
    CodesKept(t, Begin);
  }

  // -------------------------------------------------------------------------- cards

  /** The deck is always an order of the 54 cards, and in a dealt round each of them is in just one place. */
  lemma CardsConserved(es: seq<Event>, t: Table, r: Round)
    requires Reached(es, t, r)
    ensures IsDeck(t.deck)
    ensures t.running && r.dealt ==>
      var bottom := if r.bottomOut then multiset{} else multiset(t.deck[DEALT_CARDS..]);
      var places := multiset(t.hands[0]) + multiset(t.hands[1]) + multiset(t.hands[2]) + multiset(r.played) + bottom;
      places == multiset(DeskPokers()) && forall c :: places[c] <= 1
    ensures t.running && r.dealt && !r.bottomOut && r.played == [] ==>
      |t.hands[0]| == 17 && |t.hands[1]| == 17 && |t.hands[2]| == 17
    ensures t.running && r.dealt && r.bottomOut && r.played == [] ==>
      forall p :: 0 <= p < SEATS ==> |t.hands[p]| == if t.seats[p] == t.landlord then 20 else 17
  {
    hide Step, Track, After, Story, Phase, Lead, Auctioned, CodesRise;
    EveryRun(es, t, r);
    DeckCards(t.deck);
  }

  /** The three bottom cards go to the landlord, who then has the turn, and the other hands stay as they are. */
  lemma BottomToLandlord(es: seq<Event>, t: Table, r: Round, i: nat, rand: nat -> nat, q: nat)
    requires Reached(es, t, r) && i < |t.tasks| && t.tasks[i].GameLandlord? && Effective(t, t.tasks[i]) && q < SEATS
    ensures var u := Step(t, Fire(i, rand));
      && Formed(u) && u.running && u.seats == t.seats && u.landlord == t.landlord == Current(u)
      && if t.seats[q] == t.landlord then
           multiset(u.hands[q]) == multiset(t.hands[q]) + multiset(t.deck[DEALT_CARDS..])
           && |u.hands[q]| == |t.hands[q]| + 3
         else u.hands[q] == t.hands[q]
  {
    hide After, Story, CodesRise, Lead, Auctioned, Answered, AddCards, Held, IsHand, IsDeck, OnTable;
    EveryRun(es, t, r);
    StepFormed(t, Fire(i, rand));
    OnlyLastAlive(t, i);
    LandlordAlone(t);
    BottomCards(t, r, SeatOf(t.seats, t.landlord));
  }

  // --------------------------------------------------------------------------- lead

  /** The hand of the one to move. */
  function TurnHand(t: Table): seq<Card>
    requires Formed(t)
  {
    if t.turn == -1 then [] else t.hands[t.turn]
  }

  /** The one to move may pass exactly if there is a hand to beat. */
  predicate LeadOrPass(t: Table)
    requires Formed(t)
  {
    CanPass(t, Current(t)) <==> t.poker != ZeroHand
  }

  /** There is no hand to beat exactly if nobody has shown one, or the landlord was the last. */
  predicate LandlordLeads(t: Table)
  {
    t.poker == ZeroHand <==> t.shower == NOBODY || t.shower == t.landlord
  }

  lemma PlayKeepsLead(t: Table, r: Round, c: int, params: seq<seq<int>>)
    requires Inv(t, r) && TakesPlay(t, c, params) && LeadOrPass(t)
    ensures var u := Step(t, Play(c, params));
      Formed(u) && (u.running ==> LeadOrPass(u))
  {
    hide CodesRise, Phase, CardsKept, Lead, Auctioned, Answered, Sound, PassOn, ShowCards, IsLarge, Formation,
      EraseCards, NamesCards, Values, Held;
    StepFormed(t, Play(c, params));
    if params == [[PASS]] { PassIs(t, r, c); } else { ShowIs(t, r, c, params); }
  }

  lemma StepKeepsLead(t: Table, r: Round, e: Event)
    requires Inv(t, r) && t.running && r.bottomOut && LeadOrPass(t)
    ensures var u := Step(t, e);
      Formed(u) && (u.running ==> LeadOrPass(u) && Track(r, t, e).bottomOut)
  {
    hide CodesRise, Phase, CardsKept, Lead, Auctioned, Answered, Sound, Step, TakesPlay;
    StepFormed(t, e);
    if e.Play? && Counts(t, e) {
      PlayKeepsLead(t, r, e.client, e.params);
    } else {
      InPlay(t, r);
      QuietStep(t, r, e);
    }
  }

  lemma {:induction false} RunKeepsLead(t: Table, r: Round, es: seq<Event>)
    requires Inv(t, r) && r.bottomOut && RoundLasts(t, es) && LeadOrPass(t)
    ensures LeadOrPass(After(t, es)) && Story(t, r, es).bottomOut
  {
    hide Inv, Step, Track, LeadOrPass;
    InvFormed(t, r);
    if es != [] {
      var init, last := es[..|es| - 1], es[|es| - 1];
      RunKeepsLead(t, r, init);
      RunKeeps(t, r, init);
      StepKeepsLead(After(t, init), Story(t, r, init), last);
    }
  }

  /** The bottom cards are given out with the lead as the guard says. */
  lemma LeadGiven(t: Table, r: Round, i: nat, rand: nat -> nat)
    requires Inv(t, r) && i < |t.tasks| && t.tasks[i].GameLandlord? && Effective(t, t.tasks[i])
    ensures var u, v := Step(t, Fire(i, rand)), Track(r, t, Fire(i, rand));
      Formed(u) && u.running && v.bottomOut && (LeadOrPass(u) <==> LandlordLeads(t))
    ensures r.played == [] ==> LandlordLeads(t)
  {
    hide CodesRise, CardsKept, Ascent, Auctioned, Answered, Sound, AddCards;
    StepFormed(t, Fire(i, rand));
  }

  /** To the end of the round, whatever happens, the one to move may pass exactly if there is a hand to beat. */
  ghost predicate LeadOrPassThroughout(t: Table)
    requires Formed(t)
  {
    forall later :: RoundLasts(t, later) ==> LeadOrPass(After(t, later))
  }

  lemma ThroughoutNow(t: Table)
    requires Formed(t) && t.running && LeadOrPassThroughout(t)
    ensures LeadOrPass(t)
  {
    hide LeadOrPass;
    assert RoundLasts(t, []) && After(t, []) == t;
  }

  /**
   * From the time the bottom cards are given out to the end of the round, the one to move may pass exactly
   * if there is a hand to beat: if and only if, when they are given out, there is no hand to beat exactly
   * if nobody has shown one or the landlord was the last to do so. That is so if no card was played before.
   */
  lemma LeadExactly(es: seq<Event>, t: Table, r: Round, i: nat, rand: nat -> nat)
    requires Reached(es, t, r) && i < |t.tasks| && t.tasks[i].GameLandlord? && Effective(t, t.tasks[i])
    ensures var u := Step(t, Fire(i, rand));
      && Formed(u)
      && (LeadOrPassThroughout(u) <==> LandlordLeads(t))
    ensures r.played == [] ==> LandlordLeads(t)
  {
    hide Inv, Step, Track, Effective, LeadOrPass, LandlordLeads;
    EveryRun(es, t, r);
    LeadGiven(t, r, i, rand);
    var e := Fire(i, rand);
    StepKeeps(t, r, e);
    var u := Step(t, e);
    if LandlordLeads(t) {
      forall later | RoundLasts(u, later)
        ensures LeadOrPass(After(u, later))
      {
        RunKeepsLead(u, Track(r, t, e), later);
      }
    } else if LeadOrPassThroughout(u) {
      ThroughoutNow(u);
    }
  }

  /**
   * What the one to move may do, from the time the landlord is chosen: without a hand to beat, it may show any
   * single card; with one, it may pass exactly if that is not its own. So as long as the lead is right, there
   * always is a move.
   */
  lemma AlwaysAMove(es: seq<Event>, t: Table, r: Round, c: Card)
    requires Reached(es, t, r) && t.running && t.landlord != NOBODY
    ensures TurnHand(t) != []
    ensures t.poker == ZeroHand && c in TurnHand(t) ==> CanShow(t, Current(t), [Text(c)])
    ensures t.poker != ZeroHand ==> (CanPass(t, Current(t)) <==> t.shower != Current(t))
    ensures LeadOrPass(t) ==> exists params :: TakesPlay(t, Current(t), params)
  {
    hide Step, Track, After, Story, Auctioned, Answered, CodesRise, OnTable, IsDeck, Ascent, CanShow;
    EveryRun(es, t, r);
    if t.poker == ZeroHand {
      if c in TurnHand(t) { SingleShown(t, c); }
      var first := TurnHand(t)[0];
      SingleShown(t, first);
      TextIsNoPass(first);
      assert TakesPlay(t, Current(t), [Text(first)]);
    } else if LeadOrPass(t) {
      assert TakesPlay(t, Current(t), [[PASS]]);
    }
  }

  lemma TextIsNoPass(c: Card)
    ensures [Text(c)] != [[PASS]]
  {
    assert |[Text(c)][0]| == 2;
  }

  lemma FormationIs(m: multiset<int>, h: Hand)
    requires Matches(m, h)
    ensures Formation(m) == h
  {
    PatternsExclusive(m, h, Formation(m));
  }

  lemma SingleShown(t: Table, c: Card)
    requires Formed(t) && t.running && t.landlord != NOBODY && t.turn != -1
    requires t.poker == ZeroHand && c in t.hands[t.turn] && IsCard(c)
    ensures CanShow(t, Current(t), [Text(c)])
  {
    assert Named([Text(c)]) == [c];
    ValuesOne(c);
    FormationIs(Values([c]), Hand(Single, c.value, 1));
  }

  /** A trick cannot go on for ever: each hand shown in it is stronger than the one before. */
  lemma TrickBounded(es: seq<Event>, t: Table, r: Round)
    requires Reached(es, t, r) && t.running
    ensures |r.trick| <= STRONGEST + 1
    ensures forall i :: 0 < i < |r.trick| ==> IsLarge(r.trick[i], r.trick[i - 1])
  {
    hide Step, Track, After, Story, Auctioned, CodesRise, IsDeck, IsLarge;
    EveryRun(es, t, r);
    AscentBounded(r.trick);
  }

  // ----------------------------------------------------------------- the cards played

  /**
   * What a taken hand does, on every run: it is a hand that the named cards form and that beats the table; they
   * leave the hand of the one to move and no other; it lies on the table then, and the next seat has the turn.
   * The round ends exactly if all cards of the hand were named.
   */
  lemma CardsPlayed(es: seq<Event>, t: Table, r: Round, c: int, params: seq<seq<int>>)
    requires Reached(es, t, r) && CanShow(t, c, params)
    ensures var u, p, cards := Step(t, Play(c, params)), t.turn, Named(params);
      && Formed(u) && t.seats[p] == c
      && (u.running <==> exists x :: x in t.hands[p] && x !in cards)
      && (u.running ==>
            && Matches(Values(cards), u.poker) && IsLarge(u.poker, t.poker) && u.shower == c
            && (forall x :: x in u.hands[p] <==> x in t.hands[p] && x !in cards)
            && (forall q :: 0 <= q < SEATS && q != p ==> u.hands[q] == t.hands[q])
            && u.turn == (p + 1) % SEATS && u.bombs == t.bombs + if u.poker.kind == Bomb then 1 else 0)
  {
    hide After, Story, CodesRise, Phase, CardsKept, Lead, Auctioned, Answered, IsLarge, IsDeck, OnTable, EraseCards,
      Held, AreHands, Kept, Dropped, NamesCards, ShowCards;
    EveryRun(es, t, r);
    StepFormed(t, Play(c, params));
    NotAPass(t, c, params);
    ShowIs(t, r, c, params);
    ShownLeaves(t.hands[t.turn], Named(params));
    BombsCounted(t, c, params);
  }

  /** The cards that are left are those that were not named. */
  lemma ShownLeaves(hand: seq<Card>, cards: seq<Card>)
    ensures EraseCards(hand, cards) == [] <==> forall x :: x in hand ==> x in cards
    ensures forall x :: x in EraseCards(hand, cards) <==> x in hand && x !in cards
  {
    ErasedCards(hand, cards);
    forall x
      ensures x in EraseCards(hand, cards) <==> x in hand && x !in cards
    {
      KeptIn(hand, cards, x);
    }
    var rest := EraseCards(hand, cards);
    if rest != [] { assert rest[0] in rest; }
  }

  lemma {:induction false} KeptIn(hand: seq<Card>, cards: seq<Card>, x: Card)
    ensures x in Kept(hand, cards) <==> x in hand && x !in cards
  {
    if hand != [] {
      var last := |hand| - 1;
      KeptIn(hand[..last], cards, x);
      assert hand == hand[..last] + [hand[last]];
    }
  }

  lemma NotAPass(t: Table, c: int, params: seq<seq<int>>)
    requires Formed(t) && CanShow(t, c, params)
    ensures params != [[PASS]] && TakesPlay(t, c, params) && t.turn != -1 && t.seats[t.turn] == c
    ensures forall i :: 0 <= i < |params| ==> |params[i]| == 2
    ensures Matches(Values(Named(params)), Formation(Values(Named(params))))
  {
    hide Formation, IsLarge, Values;
    assert |params[0]| == 2;
  }

  /**
   * What a taken pass does: the turn goes on, and if it comes to the last to have shown cards, there is no hand to
   * beat any more.
   */
  lemma PassGiven(es: seq<Event>, t: Table, r: Round, c: int)
    requires Reached(es, t, r) && CanPass(t, c)
    ensures var u := Step(t, Play(c, [[PASS]]));
      && Formed(u) && u.running && u.hands == t.hands && u.shower == t.shower && u.turn == (t.turn + 1) % SEATS
      && (u.poker == ZeroHand <==> Current(u) == t.shower || t.poker == ZeroHand)
      && (u.poker != ZeroHand ==> u.poker == t.poker)
  {
    hide After, Story, CodesRise, Phase, CardsKept, Lead, Auctioned, Answered, Sound, PassOn;
    EveryRun(es, t, r);
    StepFormed(t, Play(c, [[PASS]]));
    PassIs(t, r, c);
  }

  /** A running round ends exactly when someone leaves the desk or the one to move shows all its cards. */
  lemma EndsExactly(es: seq<Event>, t: Table, r: Round, e: Event)
    requires Reached(es, t, r) && t.running
    ensures !Step(t, e).running <==>
      || (e.Leave? && Seated(t, e.client))
      || (e.Play? && CanShow(t, e.client, e.params) && forall x :: x in TurnHand(t) ==> x in Named(e.params))
  {
    hide After, Story, Inv, CanShow, CanPass, PassOn, ShowCards, BidOn, Call, CanBid, CanDeclare, Effective;
    if e.Play? && CanShow(t, e.client, e.params) {
      CardsPlayed(es, t, r, e.client, e.params);
      NotAPass(t, e.client, e.params);
    } else if e.Play? && e.params == [[PASS]] && CanPass(t, e.client) {
      PassGiven(es, t, r, e.client);
    } else {
      RunsOn(t, e);
    }
  }

  lemma RunsOn(t: Table, e: Event)
    requires Formed(t) && t.running && !(e.Play? && TakesPlay(t, e.client, e.params))
    ensures Step(t, e).running <==> !(e.Leave? && Seated(t, e.client))
  {
    hide TakesPlay, BidAnswer, Shuffled, Dealt, AddCards;
  }

  // -------------------------------------------------------------------- termination

  /** Three for each card held, and the passes left until the last to have shown cards has the lead. */
  function Potential(t: Table): int
    requires Formed(t)
  {
    3 * (|t.hands[0]| + |t.hands[1]| + |t.hands[2]|)
    + if t.shower == NOBODY then 0 else (SeatOf(t.seats, t.shower) - t.turn + SEATS) % SEATS
  }

  lemma PassLowers(t: Table, c: int, u: Table)
    requires Formed(t) && Formed(u) && CanPass(t, c) && u.running
    requires u == t.(turn := Auction.Next(t.turn), poker := u.poker)
    ensures 0 <= Potential(u) < Potential(t)
  {
  }

  lemma ShowLowers(t: Table, c: int, u: Table)
    requires Formed(t) && Formed(u) && MayPlay(t, c) && u.running
    requires |u.hands[t.turn]| < |t.hands[t.turn]|
    requires u == t.(turn := Auction.Next(t.turn), poker := u.poker, shower := c,
                     hands := t.hands[t.turn := u.hands[t.turn]], bombs := u.bombs)
    ensures 0 <= Potential(u) < Potential(t)
  {
  }

  /** Every card command that is taken lowers the potential, or ends the round. */
  lemma PlayDecreases(t: Table, r: Round, c: int, params: seq<seq<int>>)
    requires Inv(t, r) && TakesPlay(t, c, params)
    ensures var u := Step(t, Play(c, params));
      Formed(u) && (u.running ==> 0 <= Potential(u) < Potential(t) && u.landlord == t.landlord != NOBODY)
  {
    hide CodesRise, Phase, CardsKept, Lead, Auctioned, Sound, PassOn, ShowCards, IsLarge, Formation, EraseCards,
      NamesCards, Values, Potential;
    StepFormed(t, Play(c, params));
    if params == [[PASS]] {
      PassIs(t, r, c);
      PassLowers(t, c, PassOn(t));
    } else {
      ShowIs(t, r, c, params);
      FewerCards(t, c, params);
      if ShowCards(t, c, params).running { ShowLowers(t, c, ShowCards(t, c, params)); }
    }
  }

  lemma FewerCards(t: Table, c: int, params: seq<seq<int>>)
    requires Formed(t) && CanShow(t, c, params)
    ensures |EraseCards(t.hands[t.turn], Named(params))| < |t.hands[t.turn]|
  {
    hide Formation, IsLarge, Values;
    var hand, cards := t.hands[t.turn], Named(params);
    ErasedCards(hand, cards);
    KeptAndDropped(hand, cards);
    assert cards[0] in cards && cards[0] in hand;
    assert cards[0] in Dropped(hand, cards);
  }

  /** The number of card commands taken. */
  ghost function PlaysTaken(t: Table, es: seq<Event>): nat
    requires Formed(t)
  {
    if es == [] then 0
    else
      var init, last := es[..|es| - 1], es[|es| - 1];
      PlaysTaken(t, init) + if last.Play? && Counts(After(t, init), last) then 1 else 0
  }

  /** The round that is running goes on: it runs after each of the events. */
  ghost predicate RoundLasts(t: Table, es: seq<Event>)
    requires Formed(t)
  {
    After(t, es).running && (es == [] || RoundLasts(t, es[..|es| - 1]))
  }

  /** A step that is no play, once the landlord is chosen: at most it gives out the bottom cards. */
  lemma QuietStep(t: Table, r: Round, e: Event)
    requires Inv(t, r) && t.running && t.landlord != NOBODY && !(e.Play? && Counts(t, e))
    ensures var u, v := Step(t, e), Track(r, t, e);
      u.running ==>
        && u.landlord == t.landlord && u.shower == t.shower && u.poker == t.poker && u.seats == t.seats
        && (r.bottomOut ==> v.bottomOut) && (v.bottomOut == r.bottomOut ==> u.hands == t.hands && u.turn == t.turn)
  {
    hide CodesRise, CardsKept, Lead, Auctioned, Answered, Sound, TakesPlay, BidOn, PassOn, ShowCards, AddCards;
    if e.Fire? && 0 <= e.index < |t.tasks| && t.tasks[e.index].code == t.code { OnlyLastAlive(t, e.index); }
  }

  lemma InPlay(t: Table, r: Round)
    requires Inv(t, r) && t.running && r.bottomOut
    ensures t.landlord != NOBODY
  {
  }

  /** The most card commands that a round can still take: the bottom cards, and who has the turn then, add eleven. */
  function Budget(t: Table, r: Round): int
    requires Formed(t)
  {
    if t.landlord == NOBODY then 164 else if r.bottomOut then Potential(t) else Potential(t) + 11
  }

  /** Before there is a landlord the hands are as dealt and nothing has been shown. */
  lemma BeforeLandlord(t: Table, r: Round)
    requires Inv(t, r) && t.running && t.landlord == NOBODY && t.turn != -1
    ensures Potential(t) == 153 && !r.bottomOut && t.shower == NOBODY
  {
    hide CodesRise, Auctioned, Answered, Sound, Held, Ascent;
  }

  lemma AuctionBudget(t: Table, r: Round, e: Event)
    requires Inv(t, r) && t.running && t.landlord == NOBODY && Step(t, e).running
    ensures Formed(Step(t, e)) && Budget(Step(t, e), Track(r, t, e)) <= 164 && !(e.Play? && Counts(t, e))
  {
    hide CodesRise, CardsKept, Lead, Auctioned, Answered, Sound, BidOn, Potential;
    StepFormed(t, e);
    if e.Bid? && CanBid(t, e.client) {
      BeforeLandlord(t, r);
      BidCodes(t, e.isBid);
      SameHands(t, BidOn(t, e.isBid));
    }
  }

  lemma SameHands(t: Table, u: Table)
    requires Formed(t) && Formed(u) && u.hands == t.hands && u.shower == t.shower == NOBODY
    ensures Potential(u) == Potential(t)
  {
  }

  lemma BottomBudget(t: Table, r: Round, e: Event)
    requires Inv(t, r) && t.running && t.landlord != NOBODY && Step(t, e).running
    requires e.Fire? && !r.bottomOut && Track(r, t, e).bottomOut
    ensures Formed(Step(t, e)) && Potential(Step(t, e)) <= Potential(t) + 11
  {
    hide CodesRise, Lead, Auctioned, Answered, AddCards, Held, Alive;
    StepFormed(t, e);
    BottomCards(t, r, SeatOf(t.seats, t.landlord));
  }

  /** Every step keeps within the budget, and every card command that is taken uses it up. */
  lemma BudgetStep(t: Table, r: Round, e: Event)
    requires Inv(t, r) && t.running && Step(t, e).running
    ensures Formed(Step(t, e))
    ensures Budget(Step(t, e), Track(r, t, e)) + (if e.Play? && Counts(t, e) then 1 else 0) <= Budget(t, r)
  {
    hide Phase, CardsKept, Lead, Auctioned, Answered, Sound, CodesRise, Step, TakesPlay, Potential;
    StepFormed(t, e);
    if t.landlord == NOBODY {
      AuctionBudget(t, r, e);
    } else if e.Play? && Counts(t, e) {
      PlayDecreases(t, r, e.client, e.params);
    } else {
      QuietStep(t, r, e);
      if Track(r, t, e).bottomOut == r.bottomOut {
        SamePlay(t, Step(t, e));
      } else {
        BottomBudget(t, r, e);
      }
    }
  }

  lemma SamePlay(t: Table, u: Table)
    requires Formed(t) && Formed(u) && u.hands == t.hands
    requires u.turn == t.turn && u.shower == t.shower && u.seats == t.seats
    ensures Potential(u) == Potential(t)
  {
  }

  lemma {:induction false} PlaysBounded(t: Table, r: Round, es: seq<Event>)
    requires Inv(t, r) && RoundLasts(t, es)
    ensures PlaysTaken(t, es) + Budget(After(t, es), Story(t, r, es)) <= Budget(t, r)
  {
    hide Inv, Step, Track, Counts, Budget;
    InvFormed(t, r);
    if es != [] {
      var init, last := es[..|es| - 1], es[|es| - 1];
      PlaysBounded(t, r, init);
      RunKeeps(t, r, init);
      BudgetStep(After(t, init), Story(t, r, init), last);
    }
  }

  /** However the players play, a round takes at most 164 card commands. */
  lemma RoundEnds(es: seq<Event>, t: Table, r: Round, later: seq<Event>)
    requires Reached(es, t, r) && RoundLasts(t, later)
    ensures PlaysTaken(t, later) <= 164
  {
    hide Inv, Step, Track, Counts, After, Story, PlaysTaken, RoundLasts, Budget;
    EveryRun(es, t, r);
    PlaysBounded(t, r, later);
    RunKeeps(t, r, later);
    assert t.running by { LastsNow(t, later); }
    BudgetBounds(t, r);
    InvFormed(After(t, later), Story(t, r, later));
    BudgetPositive(After(t, later), Story(t, r, later));
  }

  lemma {:induction false} LastsNow(t: Table, es: seq<Event>)
    requires Formed(t) && RoundLasts(t, es)
    ensures t.running
  {
    if es != [] { LastsNow(t, es[..|es| - 1]); }
  }

  lemma BudgetPositive(t: Table, r: Round)
    requires Formed(t)
    ensures Budget(t, r) >= 0
  {
  }

  lemma BudgetBounds(t: Table, r: Round)
    requires Inv(t, r) && t.running
    ensures Budget(t, r) <= 164
  {
    hide CodesRise, Ascent, Auctioned, Answered, Sound;
    if t.landlord != NOBODY {
      var left := if r.bottomOut then multiset{} else multiset(t.deck[DEALT_CARDS..]);
      assert |Held(t.hands)| == |t.hands[0]| + |t.hands[1]| + |t.hands[2]|;
      assert |multiset(DeskPokers())| == DECK_SIZE;
      assert |Held(t.hands) + multiset(r.played) + left| == |Held(t.hands)| + |r.played| + |left|;
    }
  }

  // ------------------------------------------------------------------------ auction

  /**
   * What the auction promises: it takes three answers, and a fourth exactly if there was more than one bid; the
   * multiple is the number of bids less one; the landlord is the last to have bid, or, if all three passed, the
   * first to have shown its cards, without which the cards are dealt anew; no one is asked that has passed or was
   * the last to bid; and before the first bid the seats are asked in turn.
   */
  ghost predicate AsPromised(t: Table, r: Round)
    requires Formed(t)
  {
    var bids := Auction.Bids(r.given);
    var over := |r.given| == 4 || (|r.given| == 3 && bids <= 1);
    && Auction.IsSeat(r.openedAt) && |r.given| <= 4 && t.multiple == bids - 1
    && if t.landlord != NOBODY then
         over && t.landlord == if bids > 0 then r.bidder else ClientAt(t, r.declarer)
       else if Alive(t) then
         |r.given| == 3 && bids == 0 && r.declarer == -1
       else
         && !over && t.turn != -1 && Current(t) != r.bidder && t.answers[t.turn] != -1
         && (bids == 0 ==> t.turn == (r.openedAt + |r.given|) % SEATS)
  }

  /**
   * On every run, an auction is as promised if and only if no bid had been made when it opened, and no pass
   * was given while a new deal was queued.
   */
  lemma AuctionExactly(es: seq<Event>, t: Table, r: Round)
    requires Reached(es, t, r) && t.running && r.open
    ensures AsPromised(t, r) <==> r.clean && !r.latePass
  {
    hide Step, Track, After, Story, CodesRise, Sound, CardsKept, Lead, Auction.Run, Auction.Opening,
      Auction.LastBidder, Auction.Bids;
    EveryRun(es, t, r);
    if r.clean {
      Auction.AnsweredRun(r.openedAt, r.declarer, r.given);
    }
  }

  /**
   * The same for each step, as a guard on the desk before it: the opening must find no bid made; after it only
   * a pass while a new deal is queued breaks the promise, and nothing restores it.
   */
  lemma AuctionStep(es: seq<Event>, t: Table, r: Round, e: Event)
    requires Reached(es, t, r) && t.running && Counts(t, e) && Step(t, e).running && Track(r, t, e).open
    ensures Formed(Step(t, e))
    ensures AsPromised(Step(t, e), Track(r, t, e)) <==>
      if e.Fire? && t.tasks[e.index].GameBid? then t.multiple == -1
      else AsPromised(t, r) && !(e.Bid? && !e.isBid && Alive(t))
  {
    hide Step, Inv, After, Story, AsPromised, Alive;
    ReachedOn(es, t, r, e);
    AuctionExactly(es + [e], Step(t, e), Track(r, t, e));
    if !(e.Fire? && t.tasks[e.index].GameBid?) {
      OpenBefore(t, r, e);
      AuctionExactly(es, t, r);
    }
  }

  /**
   * On every run an answer is noted for the seat in turn, and while the auction goes on the next seat is asked, or
   * the one after it if the next has passed.
   */
  lemma AskedNext(es: seq<Event>, t: Table, r: Round, c: int, isBid: bool, u: Table)
    requires Reached(es, t, r) && CanBid(t, c) && u == Step(t, Bid(c, isBid))
    ensures Formed(u) && u.answers == t.answers[t.turn := if isBid then 1 else -1]
    ensures u.tasks == t.tasks ==>
      var next := (t.turn + 1) % SEATS;
      u.turn == (if u.answers[next] == -1 then (next + 1) % SEATS else next) && u.answers[u.turn] != -1
  {
    StepFormed(t, Bid(c, isBid));
    EveryRun(es, t, r);
    NeverStalls(es, t, r, isBid);
    hide Step, After, Story, CodesRise, Sound, CardsKept, Lead, Auctioned, BidAnswer, BidView, BidOn, SeatsDiffer;
    BidIsStep(t, c, isBid);
    AnsweredSeat(t, isBid);
    BidKeepsAnswers(t, isBid);
  }

  lemma BidIsStep(t: Table, c: int, isBid: bool)
    requires Formed(t) && CanBid(t, c)
    ensures Step(t, Bid(c, isBid)) == BidOn(t, isBid)
  {
    hide BidOn;
  }

  lemma BidKeepsAnswers(t: Table, isBid: bool)
    requires Formed(t) && t.turn != -1
    ensures var u, s := BidOn(t, isBid), BidAnswer(t, isBid);
      && u.answers == s.answers && u.turn == s.turn
      && (u.tasks == t.tasks ==> s.outcome == Auction.Asking || s.outcome == Auction.Stalled)
  {
    hide BidAnswer;
  }

  lemma AnsweredSeat(t: Table, isBid: bool)
    requires Formed(t) && t.turn != -1 && Answered(t) && t.landlord == NOBODY
    ensures var s, next := BidAnswer(t, isBid), (t.turn + 1) % SEATS;
      && Auction.Proper(s) && s.answers == t.answers[t.turn := if isBid then 1 else -1]
      && (s.outcome == Auction.Asking ==>
            s.answers[s.turn] != -1 && s.turn == if s.answers[next] == -1 then (next + 1) % SEATS else next)
  {
    hide Auction.SeekFirst, Auction.SeekNext;
    var s := BidView(t);
    var answered := s.(answers := s.answers[s.turn := if isBid then 1 else -1]);
    if t.multiple != -1 {
      Auction.SeekNextIs(if isBid then answered.(multiple := s.multiple + 1, top := s.turn) else answered);
    } else if isBid {
      Auction.SeekFirstIs(Auction.AfterFirstBid(s), Auction.Next(t.turn));
    } else {
      PassSeats(t);
    }
  }

  /**
   * On every run an answer that is taken leads on: to a seat to be asked, to a new deal or to a landlord,
   * whether or not the auction is open. One that opened with a bid made takes at most three answers, and ends
   * with a landlord.
   */
  lemma NeverStalls(es: seq<Event>, t: Table, r: Round, isBid: bool)
    requires Reached(es, t, r) && t.running
    ensures t.landlord == NOBODY && t.turn != -1 ==> BidAnswer(t, isBid).outcome != Auction.Stalled
    ensures r.open && !r.clean ==> |r.given| <= 3
    ensures r.open && !r.clean && t.landlord == NOBODY ==> |r.given| < 3 && t.turn != -1 && !Alive(t)
  {
    hide Step, Track, After, Story, CodesRise, Sound, CardsKept, Lead, Auctioned, Answered, BidAnswer;
    EveryRun(es, t, r);
    if t.landlord == NOBODY && t.turn != -1 {
      if t.multiple != -1 {
        LaterSeats(t, r, isBid);
      } else if isBid {
        FirstBidSeats(t);
      } else {
        PassSeats(t);
      }
    }
  }

  /**
   * On every run the auction opens with the first to have shown its cards in the round, and if nobody has, with the
   * seat after the one that opened last or since then was first to show its cards.
   */
  lemma OpeningSeat(es: seq<Event>, t: Table, r: Round, i: nat, rand: nat -> nat)
    requires Reached(es, t, r) && i < |t.tasks| && t.tasks[i].GameBid? && Effective(t, t.tasks[i])
    ensures var u, v := Step(t, Fire(i, rand)), Track(r, t, Fire(i, rand));
      && Formed(u) && u.running && v.open && v.openedAt == v.last == u.turn == Opener(r) && v.declarer == r.shown
  {
    hide After, Story, CodesRise, CardsKept, Lead, Auctioned, Answered, Sound;
    EveryRun(es, t, r);
    StepFormed(t, Fire(i, rand));
  }

  /**
   * Who may show its cards, on every run: anyone at the desk until an auction has opened in the round, and after
   * that only the landlord, if it has bid and has the turn and twenty cards.
   */
  lemma ShowsExactly(es: seq<Event>, t: Table, r: Round, c: int)
    requires Reached(es, t, r) && t.running
    ensures CanDeclare(t, c) <==>
      && Seated(t, c)
      && (r.asked ==>
            c == t.landlord == Current(t) && t.multiple != -1 && |t.hands[SeatOf(t.seats, c)]| == 20)
  {
    hide Step, Track, After, Story, CodesRise, CardsKept, Lead, Auctioned, Answered, Sound;
    EveryRun(es, t, r);
  }

  /** The first to have shown its cards stays that, whatever follows in the round. */
  lemma {:induction false} FirstStays(t: Table, r: Round, c: int, later: seq<Event>)
    requires Inv(t, r) && CanDeclare(t, c) && r.shown == -1 && RoundLasts(Step(t, Declare(c)), later)
    ensures Formed(Step(t, Declare(c)))
    ensures Story(Step(t, Declare(c)), Track(r, t, Declare(c)), later).shown == SeatOf(t.seats, c) != -1
  {
    InvFormed(t, r);
    StepFormed(t, Declare(c));
    hide Inv, Step;
    if later != [] {
      FirstStays(t, r, c, later[..|later| - 1]);
      ShownStays(After(Step(t, Declare(c)), later[..|later| - 1]),
                 Story(Step(t, Declare(c)), Track(r, t, Declare(c)), later[..|later| - 1]), later[|later| - 1]);
    }
  }

  lemma ShownStays(t: Table, r: Round, e: Event)
    requires Formed(t) && t.running && r.shown != -1
    ensures Track(r, t, e).shown == r.shown
  {
    hide Step, TakesPlay, CanDeclare, CanBid, Effective;
  }

  lemma OpenBefore(t: Table, r: Round, e: Event)
    requires Formed(t) && Counts(t, e) && Track(r, t, e).open && !(e.Fire? && t.tasks[e.index].GameBid?)
    ensures r.open && Track(r, t, e).clean == r.clean
    ensures Track(r, t, e).latePass == (r.latePass || (e.Bid? && !e.isBid && Alive(t)))
  {
    hide Step, Alive;
  }

  /** On every run the index that the loop after the first bid does not move finds what one that moves would. */
  lemma LaggingIndexAgrees(es: seq<Event>, t: Table, r: Round, c: int)
    requires Reached(es, t, r) && CanBid(t, c) && t.multiple == -1
    ensures var bid := Auction.AfterFirstBid(BidView(t));
      Auction.SeekFirst(bid, bid.turn, 0) == Auction.SeekFollowing(bid, 0)
  {
    hide Step, Track, After, Story, CodesRise, Sound, CardsKept, Lead, Auctioned, Auction.SeekFirst,
      Auction.SeekFollowing;
    EveryRun(es, t, r);
    Auction.IndexAgrees(BidView(t));
  }

  // ------------------------------------------------------------------------- robots

  /** The parameters that name the cards. */
  function Texts(cards: seq<Card>): (params: seq<seq<int>>)
    ensures |params| == |cards| && forall i :: 0 <= i < |cards| ==> params[i] == Text(cards[i])
  {
    seq(|cards|, i requires 0 <= i < |cards| => Text(cards[i]))
  }

  /** The parameters of the card command that a robot sends: what it found, or a pass. */
  function RobotParams(found: seq<Card>): seq<seq<int>>
  {
    if found == [] then [[PASS]] else Texts(found)
  }

  /**
   * The command of a robot is taken, once the landlord is chosen: what the search finds, always; and when it
   * finds nothing, there is a hand to beat, and the pass is taken exactly if that is not its own.
   */
  lemma RobotMoves(es: seq<Event>, t: Table, r: Round, found: seq<Card>)
    requires Reached(es, t, r) && t.running && t.landlord != NOBODY
    requires BigFound(TurnHand(t), t.poker, found) && (t.poker.kind == Zero ==> (found == [] <==> TurnHand(t) == []))
    ensures found != [] ==> TakesPlay(t, Current(t), RobotParams(found)) && RobotParams(found) != [[PASS]]
    ensures found == [] ==>
      t.poker != ZeroHand && (TakesPlay(t, Current(t), RobotParams(found)) <==> t.shower != Current(t))
    ensures LeadOrPass(t) ==> TakesPlay(t, Current(t), RobotParams(found))
  {
    hide After, Story;
    EveryRun(es, t, r);
    RobotTakes(t, r, found);
  }

  lemma RobotTakes(t: Table, r: Round, found: seq<Card>)
    requires Inv(t, r) && t.running && t.landlord != NOBODY
    requires BigFound(TurnHand(t), t.poker, found) && (t.poker.kind == Zero ==> (found == [] <==> TurnHand(t) == []))
    ensures found != [] ==> TakesPlay(t, Current(t), RobotParams(found)) && RobotParams(found) != [[PASS]]
    ensures found == [] ==>
      t.poker != ZeroHand && (TakesPlay(t, Current(t), RobotParams(found)) <==> t.shower != Current(t))
    ensures LeadOrPass(t) ==> TakesPlay(t, Current(t), RobotParams(found))
  {
    hide Auctioned, Answered, CodesRise, OnTable, IsDeck, Ascent, BigFound, CanShow;
    if found != [] { FoundShown(t, found); }
  }

  /** The texts of cards of a hand name them. */
  lemma TextsName(hand: seq<Card>, found: seq<Card>)
    requires IsHand(hand) && forall i :: 0 <= i < |found| ==> found[i] in hand
    ensures NamesCards(Texts(found), hand) && Named(Texts(found)) == found
  {
    forall i | 0 <= i < |found|
      ensures IsPoker(Texts(found)[i]) && Card(Texts(found)[i][0], Texts(found)[i][1]) == found[i]
    {
      assert IsCard(found[i]);
    }
  }

  lemma FoundShown(t: Table, found: seq<Card>)
    requires Formed(t) && Sound(t) && t.running && t.landlord != NOBODY && t.turn != -1
    requires found != [] && BigFound(t.hands[t.turn], t.poker, found)
    ensures Texts(found) != [[PASS]] && CanShow(t, Current(t), Texts(found))
  {
    var hand := t.hands[t.turn];
    TextIsNoPass(found[0]);
    hide Formed, OnTable, IsDeck, IsHand, IsLarge, CanBeat, JokersOverlooked, NamesCards, Named, Values, Matches,
      Formation, Text;
    var g: Hand :| Forms(hand, found, g) && IsLarge(g, t.poker);
    TextsName(hand, found);
    FormationIs(Values(found), g);
    assert Texts(found)[0] == Text(found[0]);
  }

  // ----------------------------------------------------------- what the rules leave open

  lemma PairForms(c: Card)
    ensures Named([Text(c), Text(c)]) == [c, c]
    ensures Formation(Values([c, c])) == Hand(Double, c.value, 2)
  {
    assert [c, c] == [c] + [c];
    ValuesOne(c);
    ValuesAppend([c], [c]);
    FormationIs(Values([c, c]), Hand(Double, c.value, 2));
  }

  lemma OneGone(hand: seq<Card>, c: Card)
    requires IsHand(hand) && c in hand
    ensures |EraseCards(hand, [c])| == |hand| - 1
    ensures |Dropped(hand, [c, c])| != 2
  {
    ErasedCards(hand, [c]);
    KeptAndDropped(hand, [c]);
    NamedOnce(c);
    DroppedIsNamed(hand, [c]);
    assert multiset([c, c])[c] == 2;
    DroppedIsNamed(hand, [c, c]);
  }

  /** A command may name a card twice: it is taken as a pair, and not two cards leave the hand. */
  lemma NamedTwice(t: Table, c: Card)
    requires Formed(t) && t.running && t.landlord != NOBODY && t.turn != -1
    requires t.poker == ZeroHand && IsHand(t.hands[t.turn]) && c in t.hands[t.turn]
    ensures CanShow(t, Current(t), [Text(c), Text(c)])
    ensures Formation(Values(Named([Text(c), Text(c)]))) == Hand(Double, c.value, 2)
    ensures |Dropped(t.hands[t.turn], [c, c])| != 2
  {
    hide EraseCards, Dropped, Formation, Values, Named;
    PairForms(c);
    OneGone(t.hands[t.turn], c);
    assert IsCard(c);
  }

  /** A single card may be led before the bottom cards are out. */
  lemma SingleEarly(t: Table, r: Round, c: Card, rest: nat)
    requires Inv(t, r) && t.running && t.landlord != NOBODY && !r.bottomOut && t.poker == ZeroHand
    requires c in t.hands[t.turn] && |t.hands[t.turn]| == rest + 1 && rest > 0
    ensures var u := Step(t, Play(Current(t), [Text(c)]));
      && Formed(u) && TakesPlay(t, Current(t), [Text(c)]) && u.poker != ZeroHand
      && u == t.(turn := Auction.Next(t.turn), poker := Hand(Single, c.value, 1), shower := Current(t),
                 hands := t.hands[t.turn := EraseCards(t.hands[t.turn], [c])], bombs := u.bombs)
  {
    hide Auctioned, Answered, Held, IsLarge, OnTable, IsDeck, Formation, Values, Named, EraseCards, Dropped,
      Phase, Ascent;
    DealtByThen(t, r);
    assert IsCard(c);
    SingleShown(t, c);
    OneNamed(c);
    SingleForms(c);
    OneGone(t.hands[t.turn], c);
    ShowIs(t, r, Current(t), [Text(c)]);
    StepFormed(t, Play(Current(t), [Text(c)]));
  }

  lemma SingleForms(c: Card)
    ensures Formation(Values([c])) == Hand(Single, c.value, 1)
  {
    ValuesOne(c);
    FormationIs(Values([c]), Hand(Single, c.value, 1));
  }

  lemma DealtByThen(t: Table, r: Round)
    requires Inv(t, r) && t.running && t.landlord != NOBODY
    ensures r.dealt && t.turn != -1
  {
  }

  lemma OneNamed(c: Card)
    ensures Named([Text(c)]) == [c]
  {
  }

  lemma NamedOnce(c: Card)
    ensures ChainSearch.Distinct([c])
  {
  }
}
