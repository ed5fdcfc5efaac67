// The deck of 54 cards: shuffling it, dealing it, and what the hands then hold.

module Deck {
  import opened PokerInfo
  import opened Cards
  import ChainSearch

  const DECK_SIZE := 54
  const DEALT_CARDS := 51
  const SEATS := 3

  /** The 54 cards. */
  function DeskPokers(): (deck: seq<Card>)
    ensures |deck| == DECK_SIZE
  {
    seq(DECK_SIZE, i requires 0 <= i < DECK_SIZE =>
      if i < 52 then Card(LOWEST + i / 4, FIRST_SUIT + i % 4) else Card(SMALL_JOKER + i - 52, FIRST_SUIT))
  }

  /** Some order of the 54 cards. */
  ghost predicate IsDeck(deck: seq<Card>)
  {
    |deck| == DECK_SIZE && multiset(deck) == multiset(DeskPokers())
  }

  /** Nothing is missing from the deck, and nothing else is in it. */
  lemma DeckComplete(c: Card)
    ensures c in DeskPokers() <==> IsCard(c)
  {
    if IsCard(c) {
      var i := if c.value < SMALL_JOKER then 4 * (c.value - LOWEST) + c.suit - FIRST_SUIT
               else c.value - SMALL_JOKER + 52;
      assert DeskPokers()[i] == c;
    }
  }

  lemma DeckCards(deck: seq<Card>)
    requires IsDeck(deck)
    ensures forall i :: 0 <= i < |deck| ==> IsCard(deck[i])
    ensures forall c :: multiset(deck)[c] <= 1
  {
    var all := DeskPokers();
    forall i | 0 <= i < |deck|
      ensures IsCard(deck[i])
    {
      assert deck[i] in multiset(all);
      var j :| 0 <= j < |all| && all[j] == deck[i];
    }
    forall c
      ensures multiset(deck)[c] <= 1
    {
      CountDistinct(all, c);
    }
  }

  // --------------------------------------------------------------------- shuffling

  function Swapped(deck: seq<Card>, i: nat, j: nat): (swapped: seq<Card>)
    requires i < |deck| && j < |deck|
    ensures |swapped| == |deck|
  {
    deck[i := deck[j]][j := deck[i]]
  }

  lemma SwapKeeps(deck: seq<Card>, i: nat, j: nat)
    requires i < |deck| && j < |deck|
    ensures multiset(Swapped(deck, i, j)) == multiset(deck)
  {
  }

  /** The place drawn from 0 to `top`. */
  function Spot(random: nat, top: nat): (spot: nat)
    ensures spot <= top
  {
    random % (top + 1)
  }

  /**
   * The deck after the first `k` rounds of the shuffle. Round `n` swaps the card at 53 - n with one at
   * or below it, drawn by the random number `rand(n)`.
   */
  function Shuffled(deck: seq<Card>, rand: nat -> nat, k: nat): (shuffled: seq<Card>)
    requires |deck| == DECK_SIZE && k < DECK_SIZE
    ensures |shuffled| == DECK_SIZE
  {
    if k == 0 then deck
    else
      var top := DECK_SIZE - k;
      Swapped(Shuffled(deck, rand, k - 1), top, Spot(rand(k - 1), top))
  }

  /** Whatever the random numbers, a shuffled deck holds the cards it held. */
  lemma {:induction false} ShuffleKeeps(deck: seq<Card>, rand: nat -> nat, k: nat)
    requires |deck| == DECK_SIZE && k < DECK_SIZE
    ensures multiset(Shuffled(deck, rand, k)) == multiset(deck)
  {
    hide Swapped, Spot;
    if k > 0 {
      ShuffleKeeps(deck, rand, k - 1);
      var top := DECK_SIZE - k;
      SwapKeeps(Shuffled(deck, rand, k - 1), top, Spot(rand(k - 1), top));
    }
  }

  /** Each place is drawn by every (top + 1)-th random number. */
  lemma SpotDrawn(q: nat, top: nat, place: nat)
    requires place <= top
    ensures Spot(q * (top + 1) + place, top) == place
  {
    var n := top + 1;
    var random := q * n + place;
    var d := random / n;
    assert random == d * n + random % n;
    assert (d - q) * n == d * n - q * n;
    NoMultiple(d - q, n, place - random % n);
  }

  /** Only zero times a number comes to less than the number. */
  lemma NoMultiple(d: int, n: int, rest: int)
    requires d * n == rest && -n < rest < n
    ensures rest == 0
  {
    if d > 0 {
      Grows(d, n);
      assert false;
    } else if d < 0 {
      assert -d * n == -rest;
      Grows(-d, n);
      assert false;
    }
  }

  lemma {:induction false} Grows(d: nat, n: nat)
    requires d > 0
    ensures d * n >= n
  {
    if d > 1 {
      Grows(d - 1, n);
      assert d * n == (d - 1) * n + n;
    }
  }

  /** Only the random numbers drawn so far matter. */
  lemma {:induction false} SameNumbers(deck: seq<Card>, rand: nat -> nat, other: nat -> nat, k: nat)
    requires |deck| == DECK_SIZE && k < DECK_SIZE && forall i: nat :: i < k ==> rand(i) == other(i)
    ensures Shuffled(deck, rand, k) == Shuffled(deck, other, k)
  {
    hide Swapped, Spot;
    if k > 0 {
      SameNumbers(deck, rand, other, k - 1);
    }
  }

  /** After `k` rounds the cards above are as in `goal`. */
  ghost predicate DrawnTo(deck: seq<Card>, rand: nat -> nat, k: nat, goal: seq<Card>)
    requires |deck| == |goal| == DECK_SIZE && k < DECK_SIZE
  {
    Shuffled(deck, rand, k)[DECK_SIZE - k..] == goal[DECK_SIZE - k..]
  }

  /** The card that comes next still lies in the part that is not drawn yet. */
  lemma StillThere(now: seq<Card>, goal: seq<Card>, top: nat) returns (place: nat)
    requires |now| == |goal| && top < |now| && multiset(now) == multiset(goal) && now[top + 1..] == goal[top + 1..]
    ensures place <= top && now[place] == goal[top]
  {
    assert now == now[..top + 1] + now[top + 1..] && goal == goal[..top + 1] + goal[top + 1..];
    Cancelled(multiset(now[..top + 1]), multiset(goal[..top + 1]), multiset(now[top + 1..]));
    assert goal[..top + 1][top] in multiset(goal[..top + 1]);
    assert goal[top] in now[..top + 1];
    place :| 0 <= place <= top && now[place] == goal[top];
  }

  lemma Cancelled(a: multiset<Card>, b: multiset<Card>, c: multiset<Card>)
    requires a + c == b + c
    ensures a == b
  {
    forall x
      ensures a[x] == b[x]
    {
      assert (a + c)[x] == (b + c)[x];
    }
  }

  lemma {:induction false} OrderDrawn(deck: seq<Card>, goal: seq<Card>, k: nat) returns (rand: nat -> nat)
    requires |deck| == |goal| == DECK_SIZE && multiset(deck) == multiset(goal) && k < DECK_SIZE
    ensures DrawnTo(deck, rand, k, goal)
  {
    hide Swapped, Spot;
    if k == 0 {
      rand := n => 0;
    } else {
      var before := OrderDrawn(deck, goal, k - 1);
      ShuffleKeeps(deck, before, k - 1);
      var now, top := Shuffled(deck, before, k - 1), DECK_SIZE - k;
      var place := StillThere(now, goal, top);
      rand := n => if n == k - 1 then place else before(n);
      SameNumbers(deck, rand, before, k - 1);
      SpotDrawn(0, top, place);
      PutUp(now, goal, top, place);
    }
  }

  lemma PutUp(now: seq<Card>, goal: seq<Card>, top: nat, place: nat)
    requires |now| == |goal| && place <= top < |now| && now[top + 1..] == goal[top + 1..] && now[place] == goal[top]
    ensures Swapped(now, top, place)[top..] == goal[top..]
  {
    var next := Swapped(now, top, place);
    forall i | top <= i < |now|
      ensures next[i] == goal[i]
    {
      if i > top { assert now[top + 1..][i - top - 1] == goal[top + 1..][i - top - 1]; }
    }
  }

  /** With these random numbers the shuffle comes to `goal`. */
  ghost predicate ShufflesTo(deck: seq<Card>, rand: nat -> nat, goal: seq<Card>)
    requires |deck| == DECK_SIZE
  {
    Shuffled(deck, rand, DECK_SIZE - 1) == goal
  }

  /** The shuffle comes to every order of the cards with some random numbers, and to nothing else. */
  lemma EveryOrder(deck: seq<Card>, goal: seq<Card>)
    requires |deck| == DECK_SIZE
    ensures multiset(goal) == multiset(deck) <==> exists rand :: ShufflesTo(deck, rand, goal)
  {
    hide Swapped, Spot, Shuffled;
    if multiset(goal) == multiset(deck) {
      assert |goal| == |multiset(goal)| == |multiset(deck)|;
      var rand := OrderDrawn(deck, goal, DECK_SIZE - 1);
      var shuffled := Shuffled(deck, rand, DECK_SIZE - 1);
      ShuffleKeeps(deck, rand, DECK_SIZE - 1);
      var place := StillThere(shuffled, goal, 0);
      assert shuffled == [shuffled[0]] + shuffled[1..] && goal == [goal[0]] + goal[1..];
      assert ShufflesTo(deck, rand, goal);
    } else if rand :| ShufflesTo(deck, rand, goal) {
      ShuffleKeeps(deck, rand, DECK_SIZE - 1);
      assert false;
    }
  }

  // ---------------------------------------------------------- hands as ordered sets

  /** The hand with `c` in its place. */
  function AddCard(hand: seq<Card>, c: Card): seq<Card>
  {
    if c in hand then hand else ChainSearch.Insert(c, hand)
  }

  lemma {:induction false} InsertIntoHand(hand: seq<Card>, c: Card)
    requires IsHand(hand) && IsCard(c) && c !in hand
    ensures IsHand(ChainSearch.Insert(c, hand))
    ensures forall d :: d in ChainSearch.Insert(c, hand) ==> d == c || d in hand
  {
    if hand == [] {
    } else if Less(c, hand[0]) {
      forall i | 0 <= i < |hand| ensures Less(c, hand[i]) { assert i == 0 || Less(hand[0], hand[i]); }
    } else {
      var first, rest := hand[0], hand[1..];
      InsertIntoHand(rest, c);
      var more := ChainSearch.Insert(c, rest);
      assert first != c;
      forall i | 0 <= i < |more|
        ensures Less(first, more[i])
      {
        assert more[i] in more;
      }
    }
  }

  lemma AddedCard(hand: seq<Card>, c: Card)
    requires IsHand(hand) && IsCard(c) && c !in hand
    ensures IsHand(AddCard(hand, c))
    ensures multiset(AddCard(hand, c)) == multiset(hand) + multiset{c}
    ensures |AddCard(hand, c)| == |hand| + 1
  {
    InsertIntoHand(hand, c);
    ChainSearch.InsertKeeps(c, hand);
    assert |multiset(AddCard(hand, c))| == |multiset(hand)| + 1;
  }

  /** The hand with the cards of `cards` added one after another. */
  function AddCards(hand: seq<Card>, cards: seq<Card>): seq<Card>
  {
    if cards == [] then hand
    else AddCard(AddCards(hand, cards[..|cards| - 1]), cards[|cards| - 1])
  }

  lemma AddedIn(hand: seq<Card>, d: Card, c: Card)
    ensures c in AddCard(hand, d) <==> c == d || c in hand
  {
    if d !in hand {
      ChainSearch.InsertKeeps(d, hand);
      assert c in AddCard(hand, d) <==> c in multiset(AddCard(hand, d));
    }
  }

  lemma {:induction false} CardsIn(hand: seq<Card>, cards: seq<Card>, c: Card)
    ensures c in AddCards(hand, cards) <==> c in cards || c in hand
  {
    hide AddCard;
    if cards != [] {
      var last := |cards| - 1;
      CardsIn(hand, cards[..last], c);
      AddedIn(AddCards(hand, cards[..last]), cards[last], c);
      assert cards == cards[..last] + [cards[last]];
    }
  }

  lemma {:induction false} AddedCards(hand: seq<Card>, cards: seq<Card>)
    requires IsHand(hand) && forall i :: 0 <= i < |cards| ==> IsCard(cards[i])
    requires forall c :: multiset(hand)[c] + multiset(cards)[c] <= 1
    ensures IsHand(AddCards(hand, cards))
    ensures multiset(AddCards(hand, cards)) == multiset(hand) + multiset(cards)
    ensures |AddCards(hand, cards)| == |hand| + |cards|
  {
    if cards != [] {
      var last := |cards| - 1;
      assert cards == cards[..last] + [cards[last]];
      assert forall c :: multiset(cards)[c] == multiset(cards[..last])[c] + multiset{cards[last]}[c];
      AddedCards(hand, cards[..last]);
      var before := AddCards(hand, cards[..last]);
      assert multiset(before)[cards[last]] == 0;
      AddedCard(before, cards[last]);
    }
  }

  /** The cards of the hand that are not, or are, among `cards`. */
  function Kept(hand: seq<Card>, cards: seq<Card>): seq<Card>
  {
    if hand == [] then []
    else
      var last := |hand| - 1;
      Kept(hand[..last], cards) + if hand[last] in cards then [] else [hand[last]]
  }

  function Dropped(hand: seq<Card>, cards: seq<Card>): seq<Card>
  {
    if hand == [] then []
    else
      var last := |hand| - 1;
      Dropped(hand[..last], cards) + if hand[last] in cards then [hand[last]] else []
  }

  /** The hand after its cards `cards` were erased one after another. */
  function EraseCards(hand: seq<Card>, cards: seq<Card>): seq<Card>
  {
    if cards == [] then hand
    else Erase(EraseCards(hand, cards[..|cards| - 1]), cards[|cards| - 1])
  }

  lemma {:induction false} KeptOneMore(hand: seq<Card>, cards: seq<Card>, c: Card)
    ensures Erase(Kept(hand, cards), c) == Kept(hand, cards + [c])
  {
    if hand != [] {
      var last := |hand| - 1;
      KeptOneMore(hand[..last], cards, c);
      var init := Kept(hand[..last], cards);
      assert (init + [hand[last]])[..|init|] == init;
      assert hand[last] in cards + [c] <==> hand[last] in cards || hand[last] == c;
      assert hand[last] in cards ==> Kept(hand, cards) == init;
    }
  }

  lemma {:induction false} KeptAll(hand: seq<Card>)
    ensures Kept(hand, []) == hand
  {
    if hand != [] { KeptAll(hand[..|hand| - 1]); }
  }

  lemma {:induction false} ErasedCards(hand: seq<Card>, cards: seq<Card>)
    ensures EraseCards(hand, cards) == Kept(hand, cards)
  {
    if cards == [] {
      KeptAll(hand);
    } else {
      var last := |cards| - 1;
      ErasedCards(hand, cards[..last]);
      KeptOneMore(hand, cards[..last], cards[last]);
      assert cards == cards[..last] + [cards[last]];
    }
  }

  lemma {:induction false} KeptIsHand(hand: seq<Card>, cards: seq<Card>)
    requires IsHand(hand)
    ensures IsHand(Kept(hand, cards))
    ensures forall c :: c in Kept(hand, cards) ==> c in hand
  {
    if hand != [] {
      var last := |hand| - 1;
      var rest := hand[..last];
      assert hand == rest + [hand[last]];
      KeptIsHand(rest, cards);
      LastAgain(rest, hand[last], Kept(rest, cards));
    }
  }

  /** What is kept and what is dropped make up the hand. */
  lemma {:induction false} KeptAndDropped(hand: seq<Card>, cards: seq<Card>)
    ensures multiset(hand) == multiset(Kept(hand, cards)) + multiset(Dropped(hand, cards))
    ensures |hand| == |Kept(hand, cards)| + |Dropped(hand, cards)|
    ensures forall c :: c in Dropped(hand, cards) <==> c in hand && c in cards
  {
    if hand != [] {
      var last := |hand| - 1;
      assert hand == hand[..last] + [hand[last]];
      KeptAndDropped(hand[..last], cards);
    }
  }

  /** A higher card can be put at the end of some of the cards below it. */
  lemma LastAgain(rest: seq<Card>, c: Card, some: seq<Card>)
    requires IsHand(rest + [c]) && IsHand(some) && forall d :: d in some ==> d in rest
    ensures IsHand(some + [c])
  {
    forall i | 0 <= i < |some|
      ensures Less(some[i], c)
    {
      assert some[i] in some && some[i] in rest;
      var j :| 0 <= j < |rest| && rest[j] == some[i];
      assert (rest + [c])[j] == some[i] && (rest + [c])[|rest|] == c;
    }
    assert IsCard((rest + [c])[|rest|]);
  }

  lemma SmallerMultiset(a: multiset<Card>, b: multiset<Card>)
    requires forall c :: a[c] <= 1 && (c in a <==> c in b)
    ensures |a| <= |b|
    ensures a == b <==> |a| == |b|
    ensures a == b <==> forall c :: b[c] <= 1
  {
    assert a <= b;
    assert b == a + (b - a);
    if a != b {
      var c :| c in b - a;
    }
  }

  /** Erasing cards that a command names once each drops exactly them; naming a card twice drops fewer. */
  lemma DroppedIsNamed(hand: seq<Card>, cards: seq<Card>)
    requires IsHand(hand) && forall i :: 0 <= i < |cards| ==> cards[i] in hand
    ensures multiset(Dropped(hand, cards)) == multiset(cards) <==> ChainSearch.Distinct(cards)
    ensures |Dropped(hand, cards)| == |cards| <==> ChainSearch.Distinct(cards)
  {
    KeptAndDropped(hand, cards);
    var a, b := multiset(Dropped(hand, cards)), multiset(cards);
    forall c
      ensures a[c] <= 1 && (c in a <==> c in b)
    {
      HandDistinct(hand, c);
      assert a[c] <= multiset(hand)[c];
      assert c in a <==> c in Dropped(hand, cards);
      assert c in b <==> c in cards;
    }
    SmallerMultiset(a, b);
  }

  lemma HandDistinct(hand: seq<Card>, c: Card)
    requires IsHand(hand)
    ensures multiset(hand)[c] <= 1
  {
    CountDistinct(hand, c);
  }

  // ----------------------------------------------------------------------- dealing

  /** The seat that the card at `i` of the deck goes to. */
  function Turn(i: nat): (p: nat)
    ensures p < SEATS
  {
    i % SEATS
  }

  /** The hands after the first `n` cards of the deck were dealt in turn. */
  function Dealt(deck: seq<Card>, n: nat): (hands: seq<seq<Card>>)
    requires n <= |deck|
    ensures |hands| == SEATS
  {
    if n == 0 then [[], [], []]
    else
      var p := Turn(n - 1);
      var before := Dealt(deck, n - 1);
      before[p := AddCard(before[p], deck[n - 1])]
  }

  /** All the cards of the three hands. */
  function Held(hands: seq<seq<Card>>): multiset<Card>
    requires |hands| == SEATS
  {
    multiset(hands[0]) + multiset(hands[1]) + multiset(hands[2])
  }

  ghost predicate AreHands(hands: seq<seq<Card>>)
  {
    |hands| == SEATS && IsHand(hands[0]) && IsHand(hands[1]) && IsHand(hands[2])
  }

  /** A hand of three changes, and with it what the three hold. */
  lemma HandChanges(hands: seq<seq<Card>>, p: nat, hand: seq<Card>)
    requires AreHands(hands) && p < SEATS && IsHand(hand)
    ensures AreHands(hands[p := hand])
    ensures Held(hands[p := hand]) + multiset(hands[p]) == Held(hands) + multiset(hand)
    ensures multiset(hands[p]) <= Held(hands)
  {
    hide IsHand;
  }

  /** The cards dealt so far are held by the three hands. */
  lemma {:induction false} DealtCards(deck: seq<Card>, n: nat)
    requires IsDeck(deck) && n <= |deck|
    ensures AreHands(Dealt(deck, n))
    ensures Held(Dealt(deck, n)) == multiset(deck[..n])
    ensures n > 0 ==> |Dealt(deck, n)[Turn(n - 1)]| == |Dealt(deck, n - 1)[Turn(n - 1)]| + 1
  {
    hide Turn, AddCard, IsDeck, AreHands, Held;
    if n == 0 {
      NothingDealt();
    } else {
      DealtCards(deck, n - 1);
      DeckCards(deck);
      NotDealtYet(deck, n - 1);
      DealtOneMore(Dealt(deck, n - 1), Turn(n - 1), deck[n - 1]);
      assert deck[..n] == deck[..n - 1] + [deck[n - 1]];
    }
  }

  /** A seat holds just the cards that were dealt in its turn. */
  lemma {:induction false} DealtTo(deck: seq<Card>, n: nat, p: nat, c: Card)
    requires n <= |deck| && p < SEATS
    ensures c in Dealt(deck, n)[p] <==> exists i :: 0 <= i < n && Turn(i) == p && deck[i] == c
  {
    hide AddCard, Turn;
    if n > 0 {
      DealtTo(deck, n - 1, p, c);
      AddedIn(Dealt(deck, n - 1)[Turn(n - 1)], deck[n - 1], c);
    }
  }

  /** The deal goes round: of the cards dealt the seat `p` gets each third from the `p`-th on. */
  lemma DealtInTurn(deck: seq<Card>, p: nat, c: Card)
    requires |deck| == DECK_SIZE && p < SEATS
    ensures c in Dealt(deck, DEALT_CARDS)[p] <==> exists i :: 0 <= i < DEALT_CARDS && deck[i] == c && i % 3 == p
  {
    hide Dealt;
    DealtTo(deck, DEALT_CARDS, p, c);
  }

  lemma NothingDealt()
    ensures AreHands([[], [], []])
    ensures Held([[], [], []]) == multiset{}
  {
  }

  lemma DealtOneMore(hands: seq<seq<Card>>, p: nat, c: Card)
    requires AreHands(hands) && p < SEATS && IsCard(c) && Held(hands)[c] == 0
    ensures var more := hands[p := AddCard(hands[p], c)];
            AreHands(more) && Held(more) == Held(hands) + multiset{c} && |more[p]| == |hands[p]| + 1
  {
    HeldIn(hands, p, c);
    hide IsHand, AddCard, Held, AreHands;
    AddedCard(hands[p], c);
    HandChanges(hands, p, AddCard(hands[p], c));
    AddedToAll(Held(hands[p := AddCard(hands[p], c)]), multiset(hands[p]), Held(hands), c);
  }

  lemma HeldIn(hands: seq<seq<Card>>, p: nat, c: Card)
    requires AreHands(hands) && p < SEATS && Held(hands)[c] == 0
    ensures IsHand(hands[p]) && c !in hands[p]
  {
    hide IsHand;
    assert c !in multiset(hands[p]);
  }

  lemma AddedToAll(after: multiset<Card>, hand: multiset<Card>, before: multiset<Card>, c: Card)
    requires after + hand == before + (hand + multiset{c})
    ensures after == before + multiset{c}
  {
    forall d
      ensures after[d] == (before + multiset{c})[d]
    {
      assert (after + hand)[d] == (before + (hand + multiset{c}))[d];
    }
  }

  lemma NotDealtYet(deck: seq<Card>, n: nat)
    requires IsDeck(deck) && n < |deck|
    ensures multiset(deck[..n])[deck[n]] == 0
  {
    DeckCards(deck);
    assert deck == deck[..n] + [deck[n]] + deck[n + 1..];
    assert multiset(deck)[deck[n]] <= 1;
  }

  /** The seats are dealt to in turn: after `3 * k` cards each has `k`. */
  lemma {:induction false} DealtEvenly(deck: seq<Card>, k: nat)
    requires IsDeck(deck) && 3 * k <= |deck|
    ensures forall p :: 0 <= p < SEATS ==> |Dealt(deck, 3 * k)[p]| == k
  {
    hide AddCard, IsHand;
    if k > 0 {
      var n := 3 * (k - 1);
      DealtEvenly(deck, k - 1);
      assert Turn(n) == 0 && Turn(n + 1) == 1 && Turn(n + 2) == 2;
      DealtCards(deck, n + 1);
      DealtCards(deck, n + 2);
      DealtCards(deck, n + 3);
    }
  }

  /** A full deal: seventeen cards each, and with the three bottom cards the whole deck. */
  lemma DealtSeventeen(deck: seq<Card>)
    requires IsDeck(deck)
    ensures var hands := Dealt(deck, DEALT_CARDS);
      && AreHands(hands)
      && |hands[0]| == 17 && |hands[1]| == 17 && |hands[2]| == 17
      && Held(hands) + multiset(deck[DEALT_CARDS..]) == multiset(DeskPokers())
  {
    hide Dealt, IsHand;
    DealtCards(deck, DEALT_CARDS);
    DealtEvenly(deck, 17);
    assert deck == deck[..DEALT_CARDS] + deck[DEALT_CARDS..];
  }
}
