// The search of a hand for cards that beat a given hand: singles, pairs,
// triples and fours, with or without kickers.

module PokerFinder {
  import opened PokerInfo
  import opened Patterns
  import opened Cards
  import opened PokerArchive

  // ------------------------------------------------------- what can be played

  /** Some of the cards of `hand` form the hand `h`. */
  ghost predicate CanPlay(hand: seq<Card>, h: Hand)
  {
    exists m: multiset<int> :: m <= Values(hand) && Matches(m, h)
  }

  /** `found` are different cards of `hand`, and they form the hand `h`. */
  ghost predicate Forms(hand: seq<Card>, found: seq<Card>, h: Hand)
  {
    DrawnFrom(hand, found) && Matches(Values(found), h)
  }

  lemma FormsCanPlay(hand: seq<Card>, found: seq<Card>, h: Hand)
    requires IsHand(hand) && Forms(hand, found, h)
    ensures CanPlay(hand, h)
  {
    var rest := DrawnValues(hand, found);
  }

  /** No hand of this kind and length with a value above `value` can be played. */
  ghost predicate NoAnswer(hand: seq<Card>, kind: Kind, value: int, length: int)
  {
    forall x :: x > value ==> !CanPlay(hand, Hand(kind, x, length))
  }

  /** The outcome of a complete search: cards that form a higher hand, or none because there is none. */
  ghost predicate Answers(hand: seq<Card>, kind: Kind, value: int, length: int, found: seq<Card>)
  {
    if found == [] then NoAnswer(hand, kind, value, length)
    else exists x :: x > value && Forms(hand, found, Hand(kind, x, length))
  }

  lemma AnswerFound(hand: seq<Card>, kind: Kind, value: int, length: int, found: seq<Card>, x: int)
    requires x > value && Forms(hand, found, Hand(kind, x, length))
    ensures found != [] && Answers(hand, kind, value, length, found)
  {
    assert |found| == |Values(found)|;
  }

  lemma NoneFound(hand: seq<Card>, kind: Kind, value: int, length: int)
    requires NoAnswer(hand, kind, value, length)
    ensures Answers(hand, kind, value, length, [])
  {
  }

  lemma TooFewCards(hand: seq<Card>, kind: Kind, value: int, length: int)
    requires |hand| < length
    ensures NoAnswer(hand, kind, value, length)
  {
    forall m: multiset<int>, h: Hand | m <= Values(hand) && Matches(m, h)
      ensures h.length <= |hand|
    {
      assert Values(hand) == m + (Values(hand) - m);
    }
  }

  // ------------------------------------------------- equal cards without kickers

  /**
   * `x` occurs at least `n` times, and no value above `value` does so in a smaller group or, in an equal
   * group, lower.
   */
  ghost predicate Preferred(hand: seq<Card>, value: int, n: nat, x: int)
  {
    && x > value && Values(hand)[x] >= n
    && forall y :: y > value && Values(hand)[y] >= n ==>
         Values(hand)[x] < Values(hand)[y] || (Values(hand)[x] == Values(hand)[y] && x <= y)
  }

  /** `found` are the first `n` cards of the preferred value, or no value will do. */
  ghost predicate Offers(hand: seq<Card>, value: int, n: nat, found: seq<Card>)
  {
    if found == [] then
      forall x :: x > value ==> Values(hand)[x] < n
    else
      |found| == n && Preferred(hand, value, n, found[0].value)
      && n <= |CardsOf(hand, found[0].value)| && found == CardsOf(hand, found[0].value)[..n]
  }

  /** No value above `value` occurs exactly `n`, ..., `k - 1` times. */
  ghost predicate NoneBetween(hand: seq<Card>, value: int, n: nat, k: nat)
  {
    forall y :: y > value && n <= |CardsOf(hand, y)| ==> k <= |CardsOf(hand, y)|
  }

  lemma NoneBetweenStart(hand: seq<Card>, value: int, n: nat)
    ensures NoneBetween(hand, value, n, n)
  {
  }

  lemma NoneBetweenNext(hand: seq<Card>, value: int, n: nat, k: nat)
    requires NoneBetween(hand, value, n, k) && NoneAbove(hand, k, value)
    ensures NoneBetween(hand, value, n, k + 1)
  {
  }

  lemma OfferFound(hand: seq<Card>, value: int, n: nat, k: nat, cards: seq<Card>)
    requires IsHand(hand) && 0 < n <= k && NoneBetween(hand, value, n, k)
    requires cards != [] && FirstAbove(hand, k, value, cards[0].value) && cards == CardsOf(hand, cards[0].value)
    ensures Offers(hand, value, n, cards[..n])
  {
    var x := cards[0].value;
    CardsOfCount(hand, x);
    forall y | y > value && Values(hand)[y] >= n
      ensures Values(hand)[x] < Values(hand)[y] || (Values(hand)[x] == Values(hand)[y] && x <= y)
    {
      CardsOfCount(hand, y);
    }
  }

  lemma OfferNone(hand: seq<Card>, value: int, n: nat)
    requires IsHand(hand) && 0 < n && NoneBetween(hand, value, n, 5)
    ensures Offers(hand, value, n, [])
  {
    forall x | x > value
      ensures Values(hand)[x] < n
    {
      CountBound(hand, x);
      CardsOfCount(hand, x);
    }
  }

  lemma OfferTooFew(hand: seq<Card>, value: int, n: nat)
    requires |hand| < n
    ensures Offers(hand, value, n, [])
  {
    forall x
      ensures Values(hand)[x] < n
    {
      assert Values(hand)[x] <= |Values(hand)|;
    }
  }

  /** Nothing is offered exactly if no higher value occurs `n` times. */
  lemma NothingOffered(hand: seq<Card>, value: int, n: nat, found: seq<Card>)
    requires Offers(hand, value, n, found)
    ensures |found| == 0 || |found| == n
    ensures found == [] <==> forall x :: x > value ==> Values(hand)[x] < n
  {
  }

  /** Offered cards are different cards of the hand, all of one value. */
  lemma OfferedCards(hand: seq<Card>, value: int, n: nat, found: seq<Card>)
    requires IsHand(hand) && Offers(hand, value, n, found) && found != []
    ensures |found| == n && found[0].value > value && Values(hand)[found[0].value] >= n
    ensures DrawnFrom(hand, found) && IsHand(found)
    ensures forall i :: 0 <= i < n ==> found[i].value == found[0].value
    ensures forall y :: Values(found)[y] == if y == found[0].value then n else 0
    ensures n >= 3 ==> found[0].value < SMALL_JOKER
  {
    var x := found[0].value;
    CardsOfAscend(hand, x);
    CountBound(hand, x);
    var group := CardsOf(hand, x);
    forall i | 0 <= i < n
      ensures found[i].value == x && found[i] in hand
    {
      assert group[i] in group;
    }
    forall i, j | 0 <= i < j < n
      ensures found[i] != found[j]
    {
      assert Less(group[i], group[j]);
    }
    SameValues(found, x);
  }

  lemma {:induction false} SameValues(cards: seq<Card>, x: int)
    requires forall i :: 0 <= i < |cards| ==> cards[i].value == x
    ensures forall y :: Values(cards)[y] == if y == x then |cards| else 0
  {
    if cards != [] {
      var last := |cards| - 1;
      assert cards == cards[..last] + [cards[last]];
      ValuesAppend(cards[..last], [cards[last]]);
      ValuesOne(cards[last]);
      SameValues(cards[..last], x);
    }
  }

  method FindSingle(hand: seq<Card>, value: int) returns (found: seq<Card>)
    requires IsHand(hand)
    ensures Offers(hand, value, 1, found)
  {
    hide IsHand, Archives, Offers, CardsOf, NoneBetween, NoneAbove, FirstAbove;
    if |hand| < 1 {
      OfferTooFew(hand, value, 1);
      return [];
    }
    NoneBetweenStart(hand, value, 1);
    var archived := new ArchivedPokers();
    ArchivePokerList(hand, archived);
    var typePokers := FindTypeValue(archived, 1, value, hand);
    if typePokers != [] {
      OfferFound(hand, value, 1, 1, typePokers);
      found := [typePokers[0]];
      assert found == typePokers[..1];
      return;
    }
    NoneBetweenNext(hand, value, 1, 1);
    typePokers := FindTypeValue(archived, 2, value, hand);
    if typePokers != [] {
      OfferFound(hand, value, 1, 2, typePokers);
      found := [typePokers[0]];
      assert found == typePokers[..1];
      return;
    }
    NoneBetweenNext(hand, value, 1, 2);
    typePokers := FindTypeValue(archived, 3, value, hand);
    if typePokers != [] {
      OfferFound(hand, value, 1, 3, typePokers);
      found := [typePokers[0]];
      assert found == typePokers[..1];
      return;
    }
    NoneBetweenNext(hand, value, 1, 3);
    typePokers := FindTypeValue(archived, 4, value, hand);
    if typePokers != [] {
      OfferFound(hand, value, 1, 4, typePokers);
      found := [typePokers[0]];
      assert found == typePokers[..1];
      return;
    }
    NoneBetweenNext(hand, value, 1, 4);
    OfferNone(hand, value, 1);
    return [];
  }

  method FindDouble(hand: seq<Card>, value: int) returns (found: seq<Card>)
    requires IsHand(hand)
    ensures Offers(hand, value, 2, found)
  {
    hide IsHand, Archives, Offers, CardsOf, NoneBetween, NoneAbove, FirstAbove;
    if |hand| < 2 {
      OfferTooFew(hand, value, 2);
      return [];
    }
    NoneBetweenStart(hand, value, 2);
    var archived := new ArchivedPokers();
    ArchivePokerList(hand, archived);
    var typePokers := FindTypeValue(archived, 2, value, hand);
    if typePokers != [] {
      OfferFound(hand, value, 2, 2, typePokers);
      found := [typePokers[0], typePokers[1]];
      assert found == typePokers[..2];
      return;
    }
    NoneBetweenNext(hand, value, 2, 2);
    typePokers := FindTypeValue(archived, 3, value, hand);
    if typePokers != [] {
      OfferFound(hand, value, 2, 3, typePokers);
      found := [typePokers[0], typePokers[1]];
      assert found == typePokers[..2];
      return;
    }
    NoneBetweenNext(hand, value, 2, 3);
    typePokers := FindTypeValue(archived, 4, value, hand);
    if typePokers != [] {
      OfferFound(hand, value, 2, 4, typePokers);
      found := [typePokers[0], typePokers[1]];
      assert found == typePokers[..2];
      return;
    }
    NoneBetweenNext(hand, value, 2, 4);
    OfferNone(hand, value, 2);
    return [];
  }

  method FindThree(hand: seq<Card>, value: int) returns (found: seq<Card>)
    requires IsHand(hand)
    ensures Offers(hand, value, 3, found)
  {
    hide IsHand, Archives, Offers, CardsOf, NoneBetween, NoneAbove, FirstAbove;
    if |hand| < 3 {
      OfferTooFew(hand, value, 3);
      return [];
    }
    NoneBetweenStart(hand, value, 3);
    var archived := new ArchivedPokers();
    ArchivePokerList(hand, archived);
    var typePokers := FindTypeValue(archived, 3, value, hand);
    if typePokers != [] {
      OfferFound(hand, value, 3, 3, typePokers);
      found := [typePokers[0], typePokers[1], typePokers[2]];
      assert found == typePokers[..3];
      return;
    }
    NoneBetweenNext(hand, value, 3, 3);
    typePokers := FindTypeValue(archived, 4, value, hand);
    if typePokers != [] {
      OfferFound(hand, value, 3, 4, typePokers);
      found := [typePokers[0], typePokers[1], typePokers[2]];
      assert found == typePokers[..3];
      return;
    }
    NoneBetweenNext(hand, value, 3, 4);
    OfferNone(hand, value, 3);
    return [];
  }

  method FindFour(hand: seq<Card>, value: int) returns (found: seq<Card>)
    requires IsHand(hand)
    ensures Offers(hand, value, 4, found)
  {
    hide IsHand, Archives, Offers, CardsOf, NoneBetween, NoneAbove, FirstAbove;
    if |hand| < 4 {
      OfferTooFew(hand, value, 4);
      return [];
    }
    NoneBetweenStart(hand, value, 4);
    var archived := new ArchivedPokers();
    ArchivePokerList(hand, archived);
    var typePokers := FindTypeValue(archived, 4, value, hand);
    if typePokers != [] {
      OfferFound(hand, value, 4, 4, typePokers);
      found := [typePokers[0], typePokers[1], typePokers[2], typePokers[3]];
      assert found == typePokers[..4];
      return;
    }
    NoneBetweenNext(hand, value, 4, 4);
    OfferNone(hand, value, 4);
    return [];
  }

  /** The plain kinds: single, pair, triple and bomb, by their number of cards. */
  ghost function Plain(n: nat): Kind
  {
    if n == 1 then Single else if n == 2 then Double else if n == 3 then Three else Bomb
  }

  /** What is offered is a complete answer to a plain hand. */
  lemma OfferAnswers(hand: seq<Card>, value: int, n: nat, found: seq<Card>)
    requires IsHand(hand) && 1 <= n <= 4 && Offers(hand, value, n, found)
    ensures Answers(hand, Plain(n), value, n, found)
  {
    if found != [] {
      OfferedCards(hand, value, n, found);
      AnswerFound(hand, Plain(n), value, n, found, found[0].value);
    } else {
      forall x, m: multiset<int> | x > value && m <= Values(hand)
        ensures !Matches(m, Hand(Plain(n), x, n))
      {
        assert m[x] <= Values(hand)[x] < n;
      }
    }
  }
}
