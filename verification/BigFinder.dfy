// The search of a hand for any cards that beat the hand on the table.

module BigFinder {
  import opened PokerInfo
  import opened Patterns
  import opened BeatsOrder
  import opened Cards
  import opened PokerFinder
  import opened KickerFinder
  import opened ChainFinder
  import opened ThreeChainFinder

  const SmallJokerCard := Card(SMALL_JOKER, FIRST_SUIT)
  const BigJokerCard := Card(BIG_JOKER, FIRST_SUIT)

  ghost predicate HasJokers(hand: seq<Card>)
  {
    SmallJokerCard in hand && BigJokerCard in hand
  }

  ghost predicate HasBomb(hand: seq<Card>)
  {
    exists x :: Values(hand)[x] >= 4
  }

  lemma JokersAreLast(hand: seq<Card>)
    requires IsHand(hand) && HasJokers(hand)
    ensures |hand| >= 2 && hand[|hand| - 1] == BigJokerCard && hand[|hand| - 2] == SmallJokerCard
  {
    var i :| 0 <= i < |hand| && hand[i] == BigJokerCard;
    var j :| 0 <= j < |hand| && hand[j] == SmallJokerCard;
    var last := |hand| - 1;
    InOrder(hand, i, last);
    InOrder(hand, last - 1, last);
    InOrder(hand, j, last - 1);
  }

  lemma InOrder(hand: seq<Card>, i: nat, j: nat)
    requires IsHand(hand) && i <= j < |hand|
    ensures IsCard(hand[i]) && IsCard(hand[j])
    ensures i == j || Less(hand[i], hand[j])
  {
  }

  lemma JokersPlayed(hand: seq<Card>)
    requires IsHand(hand)
    ensures CanPlay(hand, Hand(DoubleJoker, SMALL_JOKER, 2)) ==> HasJokers(hand)
    ensures HasJokers(hand) ==> Forms(hand, [SmallJokerCard, BigJokerCard], Hand(DoubleJoker, SMALL_JOKER, 2))
  {
    hide IsHand, Matches, Values;
    if CanPlay(hand, Hand(DoubleJoker, SMALL_JOKER, 2)) {
      var m: multiset<int> :| m <= Values(hand) && Matches(m, Hand(DoubleJoker, SMALL_JOKER, 2));
      JokersMatch(m);
      OneJoker(hand, SMALL_JOKER);
      OneJoker(hand, BIG_JOKER);
    }
    JokersForm();
  }

  lemma JokersMatch(m: multiset<int>)
    requires Matches(m, Hand(DoubleJoker, SMALL_JOKER, 2))
    ensures m[SMALL_JOKER] == 1 && m[BIG_JOKER] == 1
  {
  }

  lemma OneJoker(hand: seq<Card>, x: int)
    requires IsHand(hand) && x in {SMALL_JOKER, BIG_JOKER} && Values(hand)[x] >= 1
    ensures Card(x, FIRST_SUIT) in hand
  {
    var c := CountedCard(hand, x);
    assert IsCard(c);
  }

  lemma JokersForm()
    ensures Matches(Values([SmallJokerCard, BigJokerCard]), Hand(DoubleJoker, SMALL_JOKER, 2))
  {
    assert ValueList([SmallJokerCard, BigJokerCard]) == [SMALL_JOKER, BIG_JOKER];
  }

  method FindDoubleJoker(hand: seq<Card>) returns (found: seq<Card>)
    requires IsHand(hand)
    ensures found == if HasJokers(hand) then [SmallJokerCard, BigJokerCard] else []
  {
    if HasJokers(hand) { JokersAreLast(hand); }
    if |hand| < 2 {
      return [];
    }
    var curr := |hand| - 1;
    if hand[curr].value == BIG_JOKER {
      assert IsCard(hand[curr]);
      curr := curr - 1;
      if hand[curr].value == SMALL_JOKER {
        assert IsCard(hand[curr]);
        return [hand[curr], hand[curr + 1]];
      }
    }
    return [];
  }

  /** With four or more cards only a bomb is looked for, with fewer only the two jokers. */
  method FindBombOrDoubleJoker(hand: seq<Card>) returns (found: seq<Card>)
    requires IsHand(hand)
    ensures |hand| >= 4 ==> Offers(hand, ZERO_VALUE, 4, found)
    ensures |hand| < 4 ==> found == if HasJokers(hand) then [SmallJokerCard, BigJokerCard] else []
  {
    if |hand| >= 4 {
      found := FindFour(hand, ZERO_VALUE);
      return;
    }
    if HasJokers(hand) { JokersAreLast(hand); }
    if |hand| >= 2 {
      found := FindDoubleJoker(hand);
    } else {
      found := [];
    }
  }

  /** `found` beats the hand `h` on the table. */
  ghost predicate Beats(hand: seq<Card>, found: seq<Card>, h: Hand)
  {
    exists g: Hand :: Forms(hand, found, g) && IsLarge(g, h)
  }

  ghost predicate CanBeat(hand: seq<Card>, h: Hand)
  {
    exists g: Hand :: CanPlay(hand, g) && IsLarge(g, h)
  }

  /** A fallback to bombs or jokers is tried for these kinds of hands on the table. */
  ghost predicate Ordinary(h: Hand)
  {
    h.kind !in {Err, Zero, Bomb, DoubleJoker}
  }

  /** The jokers beat the hand on the table and are overlooked: there are four or more cards but no bomb among them. */
  ghost predicate JokersOverlooked(hand: seq<Card>, h: Hand)
  {
    && Ordinary(h) && |hand| >= 4 && HasJokers(hand) && !HasBomb(hand)
    && NoAnswer(hand, h.kind, h.value, h.length)
  }

  /** Two low cards and both jokers, and a pair of twos to beat. */
  const JokersAndTwo := [Card(65, FIRST_SUIT), Card(66, FIRST_SUIT), SmallJokerCard, BigJokerCard]
  const PairOfTwos := Hand(Double, TWO, 2)

  /** There the jokers are overlooked: the search finds nothing, though they beat the pair. */
  lemma JokersMissed()
    ensures IsHand(JokersAndTwo) && OnTable(PairOfTwos)
    ensures CanBeat(JokersAndTwo, PairOfTwos) && JokersOverlooked(JokersAndTwo, PairOfTwos)
    ensures forall found :: BigFound(JokersAndTwo, PairOfTwos, found) ==> found == []
  {
    assert IsHand(JokersAndTwo);
    hide BigFound, IsHand, Values, Matches, CanPlay, NoAnswer, Forms, OnTable;
    FourValues();
    JokersPlayed(JokersAndTwo);
    FormsCanPlay(JokersAndTwo, [SmallJokerCard, BigJokerCard], Hand(DoubleJoker, SMALL_JOKER, 2));
    assert IsLarge(Hand(DoubleJoker, SMALL_JOKER, 2), PairOfTwos);
    NoPairAbove(JokersAndTwo);
    PairOnTable();
    NothingFound();
  }

  lemma PairOnTable()
    ensures OnTable(PairOfTwos)
  {
    assert CardValues(multiset{TWO, TWO}) && Matches(multiset{TWO, TWO}, PairOfTwos);
  }

  lemma FourValues()
    ensures forall x :: Values(JokersAndTwo)[x] <= 1
  {
    assert ValueList(JokersAndTwo) == [65, 66, SMALL_JOKER, BIG_JOKER];
    assert Values(JokersAndTwo) == multiset{65, 66, SMALL_JOKER, BIG_JOKER};
  }

  lemma NoPairAbove(hand: seq<Card>)
    requires forall x :: Values(hand)[x] <= 1
    ensures NoAnswer(hand, Double, TWO, 2)
  {
    forall x, m: multiset<int> | m <= Values(hand)
      ensures !Matches(m, Hand(Double, x, 2))
    {
      if Matches(m, Hand(Double, x, 2)) {
        assert false;
      }
    }
  }

  lemma NothingFound()
    requires JokersOverlooked(JokersAndTwo, PairOfTwos)
    ensures forall found :: BigFound(JokersAndTwo, PairOfTwos, found) ==> found == []
  {
  }

  /** The outcome of the search: cards that beat the table; none if none can, or if the jokers are overlooked. */
  ghost predicate BigFound(hand: seq<Card>, h: Hand, found: seq<Card>)
  {
    if found == [] then CanBeat(hand, h) ==> JokersOverlooked(hand, h)
    else Beats(hand, found, h) && !JokersOverlooked(hand, h)
  }

  lemma AnswerBeats(hand: seq<Card>, h: Hand, found: seq<Card>)
    requires IsHand(hand) && OnTable(h) && h.kind != Zero
    requires found != [] && Answers(hand, h.kind, h.value, h.length, found)
    ensures BigFound(hand, h, found)
  {
    var x :| x > h.value && Forms(hand, found, Hand(h.kind, x, h.length));
    assert IsLarge(Hand(h.kind, x, h.length), h);
    FormsCanPlay(hand, found, Hand(h.kind, x, h.length));
  }

  lemma BombPlayed(hand: seq<Card>, x: int, n: int)
    requires CanPlay(hand, Hand(Bomb, x, n))
    ensures n == 4 && Values(hand)[x] >= 4
  {
    var m: multiset<int> :| m <= Values(hand) && Matches(m, Hand(Bomb, x, n));
    assert m[x] == 4;
  }

  /** What beats an ordinary hand is a higher hand of its kind, a bomb or the jokers. */
  lemma WaysToBeat(hand: seq<Card>, h: Hand)
    requires IsHand(hand) && OnTable(h) && h.kind != Zero && CanBeat(hand, h)
    ensures !NoAnswer(hand, h.kind, h.value, h.length) || HasBomb(hand) || HasJokers(hand)
    ensures h.kind == Bomb ==> !NoAnswer(hand, Bomb, h.value, 4) || HasJokers(hand)
    ensures h.kind != DoubleJoker
  {
    StrengthBounds(h);
    var g: Hand :| CanPlay(hand, g) && IsLarge(g, h);
    var m: multiset<int> :| m <= Values(hand) && Matches(m, g);
    hide IsHand, Values;
    if g.kind == h.kind {
      assert g == Hand(h.kind, g.value, h.length);
    } else if g.kind == Bomb {
      BombPlayed(hand, g.value, g.length);
    } else {
      JokersPlayed(hand);
    }
  }

  lemma FallbackBeats(hand: seq<Card>, h: Hand, found: seq<Card>)
    requires IsHand(hand) && OnTable(h) && Ordinary(h)
    requires NoAnswer(hand, h.kind, h.value, h.length) || HasBomb(hand)
    requires |hand| >= 4 ==> Offers(hand, ZERO_VALUE, 4, found)
    requires |hand| < 4 ==> found == if HasJokers(hand) then [SmallJokerCard, BigJokerCard] else []
    ensures BigFound(hand, h, found)
  {
    if |hand| >= 4 {
      NothingOffered(hand, ZERO_VALUE, 4, found);
      if found != [] {
        OfferAnswers(hand, ZERO_VALUE, 4, found);
        var x :| x > ZERO_VALUE && Forms(hand, found, Hand(Bomb, x, 4));
        assert IsLarge(Hand(Bomb, x, 4), h);
        OfferedCards(hand, ZERO_VALUE, 4, found);
      } else {
        NoBomb(hand);
        if CanBeat(hand, h) { WaysToBeat(hand, h); }
      }
    } else {
      JokersPlayed(hand);
      if found != [] {
        assert IsLarge(Hand(DoubleJoker, SMALL_JOKER, 2), h);
      } else {
        FewNoBomb(hand);
        if CanBeat(hand, h) { WaysToBeat(hand, h); }
      }
    }
  }

  lemma NoBomb(hand: seq<Card>)
    requires IsHand(hand) && forall x :: x > ZERO_VALUE ==> Values(hand)[x] < 4
    ensures !HasBomb(hand)
  {
    forall x ensures Values(hand)[x] < 4 { CountBound(hand, x); }
  }

  lemma FewNoBomb(hand: seq<Card>)
    requires |hand| < 4
    ensures !HasBomb(hand)
  {
    forall x ensures Values(hand)[x] < 4 { assert Values(hand)[x] <= |Values(hand)|; }
  }

  lemma NoSameAnswer(hand: seq<Card>, h: Hand, found: seq<Card>)
    requires found == [] && Answers(hand, h.kind, h.value, h.length, found)
    ensures NoAnswer(hand, h.kind, h.value, h.length)
  {
  }

  /** Missing an answer to a four with two singles needs a bomb to miss it with. */
  lemma MissedHasBomb(hand: seq<Card>, value: int)
    requires IsHand(hand) && !FourWithTwoOthers(hand, value)
    ensures NoAnswer(hand, FourTwoSingle, value, 6) || HasBomb(hand)
  {
    if !NoAnswer(hand, FourTwoSingle, value, 6) {
      FourTwoSingleMisses(hand, value);
      var x, y :| FourAndTwoOnly(hand, value, x, y);
    }
  }

  lemma SingleLeads(hand: seq<Card>, found: seq<Card>)
    requires IsHand(hand) && Offers(hand, ZERO_VALUE, 1, found)
    ensures BigFound(hand, ZeroHand, found)
    ensures found == [] <==> hand == []
  {
    NoCards(hand, found);
    if found != [] {
      OfferAnswers(hand, ZERO_VALUE, 1, found);
      var x :| x > ZERO_VALUE && Forms(hand, found, Hand(Single, x, 1));
      assert IsLarge(Hand(Single, x, 1), ZeroHand);
    } else {
      forall g: Hand, m: multiset<int> | m <= Values(hand)
        ensures !Matches(m, g)
      {
        assert |Values(hand)| == 0 && Values(hand) == m + (Values(hand) - m);
      }
    }
  }

  lemma BombAnswered(hand: seq<Card>, h: Hand, four: seq<Card>, found: seq<Card>)
    requires IsHand(hand) && OnTable(h) && h.kind == Bomb
    requires Offers(hand, h.value, 4, four)
    requires found == if four != [] then four else if HasJokers(hand) then [SmallJokerCard, BigJokerCard] else []
    ensures BigFound(hand, h, found)
  {
    StrengthBounds(h);
    OfferAnswers(hand, h.value, 4, four);
    JokersPlayed(hand);
    if four != [] {
      AnswerBeats(hand, h, found);
    } else if HasJokers(hand) {
      assert IsLarge(Hand(DoubleJoker, SMALL_JOKER, 2), h);
    } else if CanBeat(hand, h) {
      WaysToBeat(hand, h);
    }
  }

  /** What a hand of a kind on the table measures. */
  lemma TableLength(h: Hand)
    requires OnTable(h)
    ensures h.kind == Zero ==> h == ZeroHand
    ensures h.kind == Single ==> h.length == 1
    ensures h.kind == Double ==> h.length == 2
    ensures h.kind == Three ==> h.length == 3
    ensures h.kind == ThreeOne ==> h.length == 4
    ensures h.kind == ThreeDouble ==> h.length == 5
    ensures h.kind == FourTwoSingle ==> h.length == 6
    ensures h.kind == FourTwoDouble ==> h.length == 8
    ensures h.kind == SingleChain ==> ChainLength(h.length, 1)
    ensures h.kind == DoubleChain ==> ChainLength(h.length, 2)
    ensures h.kind == ThreeChain ==> 6 <= h.length < 20 && h.length % 3 == 0
    ensures h.kind == ThreeChainSingle ==> 8 <= h.length < 20 && h.length % 4 == 0
    ensures h.kind == ThreeChainDouble ==> 10 <= h.length < 20 && h.length % 5 == 0
    ensures h.kind != Err
  {
  }

  /** The search for an answer of the same kind as an ordinary hand on the table. */
  method FindSameKind(h: Hand, hand: seq<Card>) returns (found: seq<Card>)
    requires IsHand(hand) && OnTable(h) && Ordinary(h)
    ensures found != [] ==> Answers(hand, h.kind, h.value, h.length, found)
    ensures found == [] ==> NoAnswer(hand, h.kind, h.value, h.length) || HasBomb(hand)
    ensures found == [] && h.kind != FourTwoSingle ==> NoAnswer(hand, h.kind, h.value, h.length)
  {
    TableLength(h);
    hide IsHand, Offers, Answers, NoAnswer, OnTable, HasBomb, FourWithTwoOthers;
    match h.kind {
      case Single =>
        found := FindSingle(hand, h.value);
        OfferAnswers(hand, h.value, 1, found);
      case Double =>
        found := FindDouble(hand, h.value);
        OfferAnswers(hand, h.value, 2, found);
      case Three =>
        found := FindThree(hand, h.value);
        OfferAnswers(hand, h.value, 3, found);
      case ThreeOne =>
        found := FindThreeAndSingle(hand, h.value);
      case ThreeDouble =>
        found := FindThreeAndDouble(hand, h.value);
      case FourTwoSingle =>
        found := FindFourAndTwoSingle(hand, h.value);
        if found == [] { MissedHasBomb(hand, h.value); }
      case FourTwoDouble =>
        found := FindFourAndTwoDouble(hand, h.value);
      case SingleChain =>
        found := FindSingleChain(hand, h.value, h.length);
      case DoubleChain =>
        found := FindDoubleChain(hand, h.value, h.length);
      case ThreeChain =>
        found := FindThreeChain(hand, h.value, h.length);
      case ThreeChainSingle =>
        found := FindThreeChainAndSingle(hand, h.value, h.length);
      case ThreeChainDouble =>
        found := FindThreeChainAndDouble(hand, h.value, h.length);
    }
    if found == [] && h.kind != FourTwoSingle {
      NoSameAnswer(hand, h, found);
    }
  }

  /**
   * The search a robot makes: what it finds are cards of the hand that beat the table. It finds nothing
   * only if nothing beats the table, or if only the two jokers do and they are overlooked.
   */
  method FindBigPokers(h: Hand, hand: seq<Card>) returns (found: seq<Card>)
    requires IsHand(hand) && OnTable(h)
    ensures BigFound(hand, h, found)
    ensures found == [] && h.kind !in {Zero, FourTwoSingle, DoubleJoker} ==> NoAnswer(hand, h.kind, h.value, h.length)
    ensures h.kind == Zero ==> (found == [] <==> hand == [])
  {
    TableLength(h);
    if h.kind == Zero {
      found := FindSingle(hand, ZERO_VALUE);
      SingleLeads(hand, found);
    } else if h.kind == Bomb {
      StrengthBounds(h);
      ghost var four;
      found := FindFour(hand, h.value);
      four := found;
      OfferAnswers(hand, h.value, 4, four);
      if |found| == 0 {
        found := FindDoubleJoker(hand);
      }
      BombAnswered(hand, h, four, found);
    } else if h.kind == DoubleJoker {
      found := [];
      if CanBeat(hand, h) { WaysToBeat(hand, h); }
    } else {
      hide Answers, NoAnswer, OnTable, HasBomb, BigFound, IsHand, Offers;
      found := FindSameKind(h, hand);
      if |found| == 0 {
        found := FindBombOrDoubleJoker(hand);
        FallbackBeats(hand, h, found);
      } else {
        AnswerBeats(hand, h, found);
      }
    }
  }
}
