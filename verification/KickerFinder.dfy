// Triples and fours with kickers.

module KickerFinder {
  import opened PokerInfo
  import opened Patterns
  import opened Cards
  import opened PokerFinder

  /** A card or pair found in what remains goes with the cards already taken. */
  lemma AddKickers(hand: seq<Card>, taken: seq<Card>, kickers: seq<Card>)
    requires IsHand(hand) && DrawnFrom(hand, taken) && DrawnFrom(hand, kickers)
    requires forall i :: 0 <= i < |kickers| ==> kickers[i] !in taken
    ensures DrawnFrom(hand, taken + kickers)
    ensures forall x :: Values(taken + kickers)[x] == Values(taken)[x] + Values(kickers)[x]
    ensures |Values(taken + kickers)| == |taken| + |kickers|
  {
    ValuesAppend(taken, kickers);
  }

  lemma Element(m: multiset<int>) returns (x: int)
    requires |m| > 0
    ensures m[x] > 0
  {
    assert (forall y :: m[y] == multiset{}[y]) ==> m == multiset{};
    x :| m[x] > 0;
  }

  /** A hand with one main value and a kicker has a card of another value. */
  lemma SomeKicker(m: multiset<int>, x: int) returns (k: int)
    requires m[x] < |m|
    ensures k != x && m[k] > 0
  {
    var others := m[x := 0];
    assert |others| == |m| - m[x];
    k := Element(others);
  }

  lemma SomeTwoKickers(m: multiset<int>, x: int) returns (k: int, l: int)
    requires forall y :: y != x ==> m[x] + m[y] < |m|
    ensures k != x && l != x && k != l && m[k] > 0 && m[l] > 0
  {
    assert m[x] + m[x + 1] < |m|;
    k := SomeKicker(m, x);
    var others := m[x := 0][k := 0];
    assert |others| == |m| - m[x] - m[k];
    l := Element(others);
  }

  lemma NoCards(hand: seq<Card>, offered: seq<Card>)
    requires IsHand(hand) && Offers(hand, ZERO_VALUE, 1, offered)
    ensures offered == [] <==> hand == []
  {
    if offered != [] {
      OfferedCards(hand, ZERO_VALUE, 1, offered);
    }
    if hand != [] {
      assert IsCard(hand[0]);
      CardCounts(hand, hand[0]);
    }
  }

  lemma CardCounts(hand: seq<Card>, c: Card)
    requires c in hand
    ensures Values(hand)[c.value] > 0
  {
    var i :| 0 <= i < |hand| && hand[i] == c;
    assert ValueList(hand)[i] in multiset(ValueList(hand));
  }

  lemma CountedCard(hand: seq<Card>, x: int) returns (c: Card)
    requires Values(hand)[x] > 0
    ensures c in hand && c.value == x
  {
    var list := ValueList(hand);
    assert x in list;
    var i :| 0 <= i < |list| && list[i] == x;
    c := hand[i];
  }

  /** Without enough equal cards of a higher value there is no hand with kickers. */
  lemma NoMain(hand: seq<Card>, kind: Kind, value: int, length: int)
    requires kind in {ThreeOne, ThreeDouble, FourTwoSingle, FourTwoDouble}
    requires forall x :: x > value ==> Values(hand)[x] < if kind in {ThreeOne, ThreeDouble} then 3 else 4
    ensures NoAnswer(hand, kind, value, length)
  {
    forall x, m: multiset<int> | x > value && m <= Values(hand)
      ensures !Matches(m, Hand(kind, x, length))
    {
      assert m[x] <= Values(hand)[x];
    }
  }

  /** The main cards with kickers are an answer. */
  lemma MainFound(hand: seq<Card>, kind: Kind, value: int, main: seq<Card>, kickers: seq<Card>)
    requires IsHand(hand) && kind in {ThreeOne, ThreeDouble, FourTwoSingle, FourTwoDouble}
    requires Offers(hand, value, if kind in {ThreeOne, ThreeDouble} then 3 else 4, main) && main != []
    requires DrawnFrom(hand, kickers) && forall i :: 0 <= i < |kickers| ==> kickers[i] !in main
    requires Values(kickers)[main[0].value] == 0
    requires |kickers| == if kind == ThreeOne then 1 else if kind == FourTwoDouble then 4 else 2
    requires kind != FourTwoSingle ==> forall y :: Values(kickers)[y] in {0, if kind == ThreeOne then 1 else 2}
    ensures Answers(hand, kind, value, |main| + |kickers|, main + kickers)
    ensures main + kickers != []
  {
    hide IsHand, Offers, Values, Answers;
    OfferedCards(hand, value, if kind in {ThreeOne, ThreeDouble} then 3 else 4, main);
    AddKickers(hand, main, kickers);
    AnswerFound(hand, kind, value, |main| + |kickers|, main + kickers, main[0].value);
  }

  // ---------------------------------------------------------- three and a single

  lemma NoThreeOne(hand: seq<Card>, value: int, x: int)
    requires forall c :: c in hand ==> c.value == x
    ensures NoAnswer(hand, ThreeOne, value, 4)
  {
    forall z, m: multiset<int> | z > value && m <= Values(hand)
      ensures !Matches(m, Hand(ThreeOne, z, 4))
    {
      if Matches(m, Hand(ThreeOne, z, 4)) {
        var k := SomeKicker(m, z);
        var c := CountedCard(hand, k);
        var d := CountedCard(hand, z);
      }
    }
  }

  method FindThreeAndSingle(hand: seq<Card>, value: int) returns (found: seq<Card>)
    requires IsHand(hand)
    ensures Answers(hand, ThreeOne, value, 4, found)
  {
    hide IsHand, Offers, Answers, Values, NoAnswer;
    if |hand| < 4 {
      TooFewCards(hand, ThreeOne, value, 4);
      NoneFound(hand, ThreeOne, value, 4);
      return [];
    }
    found := FindThree(hand, value);
    NothingOffered(hand, value, 3, found);
    if |found| < 3 {
      NoMain(hand, ThreeOne, value, 4);
      NoneFound(hand, ThreeOne, value, 4);
      return [];
    }
    OfferedCards(hand, value, 3, found);
    ghost var x := found[0].value;
    var clone := EraseAll(hand, found);
    while true
      invariant IsHand(clone)
      invariant forall c :: c in clone ==> c in hand && c !in found
      invariant forall c :: c in hand && c.value != x ==> c in clone
      decreases |clone|
    {
      var single := FindSingle(clone, ZERO_VALUE);
      NothingOffered(clone, ZERO_VALUE, 1, single);
      NoCards(clone, single);
      if |single| < 1 {
        NoThreeOne(hand, value, x);
        NoneFound(hand, ThreeOne, value, 4);
        return [];
      }
      OfferedCards(clone, ZERO_VALUE, 1, single);
      if found[0].value == single[0].value {
        EraseMembers(clone, single[0]);
        EraseOne(clone, single[0]);
        clone := Erase(clone, single[0]);
      } else {
        MainFound(hand, ThreeOne, value, found, single);
        assert found + single == found + [single[0]];
        found := found + [single[0]];
        return;
      }
    }
  }

  // ------------------------------------------------------------ three and a pair

  lemma NoThreeDouble(hand: seq<Card>, value: int, x: int)
    requires forall y :: y != x ==> Values(hand)[y] < 2
    ensures NoAnswer(hand, ThreeDouble, value, 5)
  {
    forall z, m: multiset<int> | z > value && m <= Values(hand)
      ensures !Matches(m, Hand(ThreeDouble, z, 5))
    {
      if Matches(m, Hand(ThreeDouble, z, 5)) {
        var k := SomeKicker(m, z);
      }
    }
  }

  /** No value but `x` has a pair when what remains beside cards of `x` has none. */
  lemma NoPairBeside(hand: seq<Card>, taken: seq<Card>, rest: seq<Card>, x: int, y: int)
    requires IsHand(hand) && Remains(hand, taken, rest) && y != x
    requires forall z :: z != x ==> Values(taken)[z] == 0
    requires forall z :: z > ZERO_VALUE ==> Values(rest)[z] < 2
    ensures Values(hand)[y] < 2
  {
    CountBound(hand, y);
    assert Values(rest)[y] + Values(taken)[y] == Values(hand)[y];
  }

  /** When `n` of at most `n + 1` cards of a value are gone no pair of it remains. */
  lemma PairIsBeside(hand: seq<Card>, main: seq<Card>, rest: seq<Card>, pair: seq<Card>)
    requires IsHand(hand) && Remains(hand, main, rest) && main != [] && Values(main)[main[0].value] >= 3
    requires Offers(rest, ZERO_VALUE, 2, pair) && pair != []
    ensures pair[0].value != main[0].value && Values(pair)[main[0].value] == 0
    ensures DrawnFrom(hand, pair) && forall i :: 0 <= i < |pair| ==> pair[i] !in main
    ensures |pair| == 2 && forall y :: Values(pair)[y] in {0, 2}
  {
    var x := main[0].value;
    CountBound(hand, x);
    assert Values(rest)[x] + Values(main)[x] == Values(hand)[x];
    OfferedCards(rest, ZERO_VALUE, 2, pair);
  }

  method FindThreeAndDouble(hand: seq<Card>, value: int) returns (found: seq<Card>)
    requires IsHand(hand)
    ensures Answers(hand, ThreeDouble, value, 5, found)
  {
    hide IsHand, Offers, Answers, Values, NoAnswer;
    if |hand| < 5 {
      TooFewCards(hand, ThreeDouble, value, 5);
      NoneFound(hand, ThreeDouble, value, 5);
      return [];
    }
    found := FindThree(hand, value);
    NothingOffered(hand, value, 3, found);
    if |found| < 3 {
      NoMain(hand, ThreeDouble, value, 5);
      NoneFound(hand, ThreeDouble, value, 5);
      return [];
    }
    OfferedCards(hand, value, 3, found);
    ghost var x := found[0].value;
    var clone := EraseAll(hand, found);
    var double := FindDouble(clone, ZERO_VALUE);
    NothingOffered(clone, ZERO_VALUE, 2, double);
    if |double| < 2 {
      forall y | y != x { NoPairBeside(hand, found, clone, x, y); }
      NoThreeDouble(hand, value, x);
      NoneFound(hand, ThreeDouble, value, 5);
      return [];
    } else {
      PairIsBeside(hand, found, clone, double);
      MainFound(hand, ThreeDouble, value, found, double);
      assert found + double == found + [double[0]] + [double[1]];
      found := found + [double[0]];
      found := found + [double[1]];
    }
  }

  // -------------------------------------------------------- four and two singles

  /** Four cards of a value above `value`, and two cards of two other values. */
  ghost predicate FourWithTwoOthers(hand: seq<Card>, value: int)
  {
    exists x, y, z :: IsFourWithTwoOthers(hand, value, x, y, z)
  }

  ghost predicate IsFourWithTwoOthers(hand: seq<Card>, value: int, x: int, y: int, z: int)
  {
    && x > value && Values(hand)[x] >= 4
    && x != y && y != z && x != z && Values(hand)[y] > 0 && Values(hand)[z] > 0
  }

  /** A hand of at most two values has no four with two others. */
  lemma NoTwoOthers(hand: seq<Card>, value: int, x: int, y: int)
    requires forall c :: c in hand ==> c.value == x || c.value == y
    ensures !FourWithTwoOthers(hand, value)
  {
    forall f, k, l
      ensures !IsFourWithTwoOthers(hand, value, f, k, l)
    {
      if IsFourWithTwoOthers(hand, value, f, k, l) {
        var a := CountedCard(hand, f);
        var b := CountedCard(hand, k);
        var c := CountedCard(hand, l);
      }
    }
  }

  /** The kickers of a four must be single cards of two values: a pair is not considered. */
  method FindFourAndTwoSingle(hand: seq<Card>, value: int) returns (found: seq<Card>)
    requires IsHand(hand)
    ensures found == [] <==> !FourWithTwoOthers(hand, value)
    ensures found != [] ==> Answers(hand, FourTwoSingle, value, 6, found)
  {
    hide IsHand, Offers, Answers, Values, FourWithTwoOthers;
    if |hand| < 5 {
      FewCardsNoOthers(hand, value);
      return [];
    }
    found := FindFour(hand, value);
    NothingOffered(hand, value, 4, found);
    if |found| < 4 {
      NoFourNoOthers(hand, value);
      return [];
    }
    OfferedCards(hand, value, 4, found);
    ghost var x := found[0].value;
    var clone := EraseAll(hand, found);
    NoneLeft(hand, found, clone);
    var singlePokers: seq<Card> := [];
    while true
      invariant IsHand(clone) && |singlePokers| <= 1
      invariant forall c :: c in clone ==> c in hand && c !in found && c.value != x
      invariant singlePokers == [] ==> forall c :: c in hand && c.value != x ==> c in clone
      invariant singlePokers != [] ==>
        && singlePokers[0] in hand && singlePokers[0] !in found && singlePokers[0].value != x
        && forall c :: c in hand && c.value != x && c.value != singlePokers[0].value ==> c in clone
      decreases |clone|
    {
      var single := FindSingle(clone, ZERO_VALUE);
      NothingOffered(clone, ZERO_VALUE, 1, single);
      NoCards(clone, single);
      if |single| < 1 {
        NoTwoOthers(hand, value, x, if singlePokers == [] then x else singlePokers[0].value);
        return [];
      } else {
        OfferedCards(clone, ZERO_VALUE, 1, single);
        EraseMembers(clone, single[0]);
        EraseOne(clone, single[0]);
        clone := Erase(clone, single[0]);
        if |singlePokers| < 1 {
          singlePokers := singlePokers + [single[0]];
        } else {
          if singlePokers[0].value == single[0].value {
            continue;
          } else {
            TwoSinglesFound(hand, value, found, singlePokers[0], single[0]);
            assert found + [singlePokers[0]] + [single[0]] == found + [singlePokers[0], single[0]];
            found := found + [singlePokers[0]];
            found := found + [single[0]];
            return;
          }
        }
      }
    }
  }

  /** Four equal cards are all the cards of their value. */
  lemma NoneLeft(hand: seq<Card>, four: seq<Card>, rest: seq<Card>)
    requires IsHand(hand) && Remains(hand, four, rest) && four != [] && Values(four)[four[0].value] == 4
    ensures Values(rest)[four[0].value] == 0
    ensures forall c :: c in rest ==> c.value != four[0].value
  {
    var x := four[0].value;
    CountBound(hand, x);
    assert Values(rest)[x] + Values(four)[x] == Values(hand)[x];
    forall c | c in rest ensures c.value != x { CardCounts(rest, c); }
  }

  lemma NoFourNoOthers(hand: seq<Card>, value: int)
    requires forall x :: x > value ==> Values(hand)[x] < 4
    ensures !FourWithTwoOthers(hand, value)
  {
  }

  lemma FewCardsNoOthers(hand: seq<Card>, value: int)
    requires |hand| < 6
    ensures !FourWithTwoOthers(hand, value)
  {
    forall x, y, z
      ensures !IsFourWithTwoOthers(hand, value, x, y, z)
    {
      if IsFourWithTwoOthers(hand, value, x, y, z) { CountsOfThree(Values(hand), x, y, z); }
    }
  }

  lemma TwoSinglesFound(hand: seq<Card>, value: int, four: seq<Card>, c: Card, d: Card)
    requires IsHand(hand) && Offers(hand, value, 4, four) && four != []
    requires c in hand && d in hand && c !in four && d !in four
    requires c.value != four[0].value && d.value != four[0].value && c.value != d.value
    ensures Answers(hand, FourTwoSingle, value, 6, four + [c, d]) && FourWithTwoOthers(hand, value)
  {
    var kickers := [c, d];
    assert kickers == [c] + [d];
    ValuesAppend([c], [d]);
    ValuesOne(c);
    ValuesOne(d);
    OfferedCards(hand, value, 4, four);
    MainFound(hand, FourTwoSingle, value, four, kickers);
    CardCounts(hand, c);
    CardCounts(hand, d);
    assert IsFourWithTwoOthers(hand, value, four[0].value, c.value, d.value);
  }

  /** Four cards of `x`, above `value`, at least two of `y`, and nothing else. */
  ghost predicate FourAndTwoOnly(hand: seq<Card>, value: int, x: int, y: int)
  {
    && x > value && x != y && Values(hand)[x] == 4 && Values(hand)[y] >= 2
    && forall c :: c in hand ==> c.value == x || c.value == y
  }

  lemma MissedHand(hand: seq<Card>, value: int, x: int, m: multiset<int>) returns (y: int)
    requires IsHand(hand) && !FourWithTwoOthers(hand, value)
    requires x > value && m <= Values(hand) && Matches(m, Hand(FourTwoSingle, x, 6))
    ensures FourAndTwoOnly(hand, value, x, y)
  {
    CountBound(hand, x);
    hide IsHand;
    y := SomeKicker(m, x);
    forall c | c in hand
      ensures c.value == x || c.value == y
    {
      CardCounts(hand, c);
      assert !IsFourWithTwoOthers(hand, value, x, y, c.value);
    }
    forall z | z != x && z != y
      ensures m[z] == 0
    {
      if m[z] > 0 { var c := CountedCard(hand, z); }
    }
    assert m == multiset{}[x := m[x]][y := m[y]];
  }

  lemma MissesTwoValues(hand: seq<Card>, value: int, x: int, y: int)
    requires FourAndTwoOnly(hand, value, x, y)
    ensures CanPlay(hand, Hand(FourTwoSingle, x, 6)) && !FourWithTwoOthers(hand, value)
  {
    var m := multiset{}[x := 4][y := 2];
    assert m <= Values(hand) && Matches(m, Hand(FourTwoSingle, x, 6));
    NoTwoOthers(hand, value, x, y);
  }

  /**
   * The search misses an answer exactly for hands of two values: four cards of one, above `value`,
   * and two or more of the other.
   */
  lemma FourTwoSingleMisses(hand: seq<Card>, value: int)
    requires IsHand(hand)
    ensures !NoAnswer(hand, FourTwoSingle, value, 6) && !FourWithTwoOthers(hand, value)
       <==> exists x, y :: FourAndTwoOnly(hand, value, x, y)
  {
    if !NoAnswer(hand, FourTwoSingle, value, 6) && !FourWithTwoOthers(hand, value) {
      var x :| x > value && CanPlay(hand, Hand(FourTwoSingle, x, 6));
      var m: multiset<int> :| m <= Values(hand) && Matches(m, Hand(FourTwoSingle, x, 6));
      var y := MissedHand(hand, value, x, m);
    }
    if x, y :| FourAndTwoOnly(hand, value, x, y) {
      MissesTwoValues(hand, value, x, y);
    }
  }

  const FoursAndFives := [Card(66, 49), Card(66, 50), Card(66, 51), Card(66, 52), Card(67, 49), Card(67, 50)]

  /** For instance: with 4444 and a pair of fives it does not answer 3333 with two singles. */
  lemma FourTwoSingleMissed()
    ensures CanPlay(FoursAndFives, Hand(FourTwoSingle, 66, 6)) && !FourWithTwoOthers(FoursAndFives, 65)
  {
    assert ValueList(FoursAndFives) == [66, 66, 66, 66, 67, 67];
    assert Values(FoursAndFives) == multiset{66, 66, 66, 66, 67, 67};
    MissesTwoValues(FoursAndFives, 65, 66, 67);
  }

  // ---------------------------------------------------------- four and two pairs

  /** Among the values other than `x` and `a` none has a pair. */
  ghost predicate NoOtherPair(hand: seq<Card>, x: int, a: int)
  {
    forall y :: y != x && y != a ==> Values(hand)[y] < 2
  }

  lemma NoFourTwoDouble(hand: seq<Card>, value: int, x: int, a: int)
    requires NoOtherPair(hand, x, a)
    ensures NoAnswer(hand, FourTwoDouble, value, 8)
  {
    forall z, m: multiset<int> | z > value && m <= Values(hand)
      ensures !Matches(m, Hand(FourTwoDouble, z, 8))
    {
      if Matches(m, Hand(FourTwoDouble, z, 8)) {
        var k, l := SomeTwoKickers(m, z);
      }
    }
  }

  /** What the search for a second pair knows of the cards left. */
  ghost predicate PairSearch(hand: seq<Card>, four: seq<Card>, pair: seq<Card>, rest: seq<Card>)
  {
    && IsHand(rest) && four != []
    && (forall c :: c in rest ==> c in hand && c !in four && c !in pair)
    && (forall y :: y != four[0].value && (pair == [] || y != pair[0].value) ==> Values(rest)[y] == Values(hand)[y])
    && Values(rest)[four[0].value] == 0
    && (pair != [] ==>
          && DrawnFrom(hand, pair) && (forall i :: 0 <= i < |pair| ==> pair[i] !in four)
          && |pair| == 2 && pair[0].value != four[0].value
          && forall y :: Values(pair)[y] == if y == pair[0].value then 2 else 0)
  }

  lemma PairSearchStarts(hand: seq<Card>, four: seq<Card>, rest: seq<Card>)
    requires IsHand(hand) && Remains(hand, four, rest) && four != []
    requires forall y :: Values(four)[y] == if y == four[0].value then 4 else 0
    ensures PairSearch(hand, four, [], rest)
  {
    NoneLeft(hand, four, rest);
    forall y | y != four[0].value
      ensures Values(rest)[y] == Values(hand)[y]
    {
      assert Values(rest)[y] + Values(four)[y] == Values(hand)[y];
    }
  }

  lemma PairTaken(rest: seq<Card>, double: seq<Card>)
    requires IsHand(rest) && Offers(rest, ZERO_VALUE, 2, double) && double != []
    ensures var left := Erase(Erase(rest, double[0]), double[1]);
            && IsHand(left) && |left| < |rest|
            && (forall c :: c in left ==> c in rest && c !in double)
            && (forall y :: y != double[0].value ==> Values(left)[y] == Values(rest)[y])
            && Values(left)[double[0].value] <= Values(rest)[double[0].value]
  {
    OfferedCards(rest, ZERO_VALUE, 2, double);
    TwoErased(rest, double[0], double[1]);
  }

  lemma TwoErased(rest: seq<Card>, c: Card, d: Card)
    requires IsHand(rest) && c in rest && d in rest && c != d && c.value == d.value
    ensures var left := Erase(Erase(rest, c), d);
            && IsHand(left) && |left| < |rest|
            && (forall e :: e in left ==> e in rest && e != c && e != d)
            && Values(rest) == Values(left) + multiset{c.value} + multiset{c.value}
  {
    hide IsHand, Values;
    EraseMembers(rest, c);
    EraseOne(rest, c);
    EraseMembers(Erase(rest, c), d);
    EraseOne(Erase(rest, c), d);
  }

  lemma PairSearchEnds(hand: seq<Card>, four: seq<Card>, pair: seq<Card>, rest: seq<Card>)
    requires IsHand(hand) && PairSearch(hand, four, pair, rest)
    requires forall y :: y > ZERO_VALUE ==> Values(rest)[y] < 2
    ensures NoOtherPair(hand, four[0].value, if pair == [] then four[0].value else pair[0].value)
  {
    var x, a := four[0].value, if pair == [] then four[0].value else pair[0].value;
    forall y | y != x && y != a
      ensures Values(hand)[y] < 2
    {
      CountBound(hand, y);
    }
  }

  /** A first pair is kept, a second pair of the same value dropped. */
  lemma PairSearchGoesOn(hand: seq<Card>, four: seq<Card>, pair: seq<Card>, rest: seq<Card>, double: seq<Card>)
    requires PairSearch(hand, four, pair, rest)
    requires Offers(rest, ZERO_VALUE, 2, double) && double != []
    requires pair == [] || pair[0].value == double[0].value
    ensures PairSearch(hand, four, if pair == [] then double else pair, Erase(Erase(rest, double[0]), double[1]))
  {
    hide IsHand, Offers, Values, Erase;
    OfferedCards(rest, ZERO_VALUE, 2, double);
    var left := Erase(Erase(rest, double[0]), double[1]);
    PairTaken(rest, double);
    if pair == [] {
      PairKept(hand, four, rest, double, left);
    } else {
      PairDropped(hand, four, pair, rest, double, left);
    }
  }

  /** `left` is `rest` without the pair `double`. */
  ghost predicate PairLeft(rest: seq<Card>, double: seq<Card>, left: seq<Card>)
  {
    && IsHand(left) && DrawnFrom(rest, double) && |double| == 2 && double[1].value == double[0].value
    && (forall c :: c in left ==> c in rest && c !in double)
    && (forall y :: y != double[0].value ==> Values(left)[y] == Values(rest)[y])
    && Values(left)[double[0].value] <= Values(rest)[double[0].value]
    && Values(rest)[double[0].value] >= 2
    && forall y :: Values(double)[y] == if y == double[0].value then 2 else 0
  }

  lemma PairKept(hand: seq<Card>, four: seq<Card>, rest: seq<Card>, double: seq<Card>, left: seq<Card>)
    requires PairSearch(hand, four, [], rest) && PairLeft(rest, double, left)
    ensures PairSearch(hand, four, double, left)
  {
    hide IsHand, Values;
  }

  lemma PairDropped(hand: seq<Card>, four: seq<Card>, pair: seq<Card>, rest: seq<Card>,
                    double: seq<Card>, left: seq<Card>)
    requires PairSearch(hand, four, pair, rest) && PairLeft(rest, double, left)
    requires pair != [] && pair[0].value == double[0].value
    ensures PairSearch(hand, four, pair, left)
  {
    hide IsHand, Values;
  }

  lemma TwoPairsFound(hand: seq<Card>, value: int, four: seq<Card>, pair: seq<Card>, rest: seq<Card>, double: seq<Card>)
    requires IsHand(hand) && Offers(hand, value, 4, four) && four != []
    requires PairSearch(hand, four, pair, rest) && pair != []
    requires Offers(rest, ZERO_VALUE, 2, double) && double != []
    requires pair[0].value != double[0].value
    ensures |pair| == |double| == 2
    ensures Answers(hand, FourTwoDouble, value, 8, four + (pair + double))
  {
    OfferedCards(hand, value, 4, four);
    OfferedCards(rest, ZERO_VALUE, 2, double);
    AddKickers(hand, pair, double);
    MainFound(hand, FourTwoDouble, value, four, pair + double);
  }

  method FindFourAndTwoDouble(hand: seq<Card>, value: int) returns (found: seq<Card>)
    requires IsHand(hand)
    ensures Answers(hand, FourTwoDouble, value, 8, found)
  {
    hide IsHand, Offers, Answers, Values, NoAnswer, PairSearch;
    if |hand| < 8 {
      TooFewCards(hand, FourTwoDouble, value, 8);
      NoneFound(hand, FourTwoDouble, value, 8);
      return [];
    }
    found := FindFour(hand, value);
    NothingOffered(hand, value, 4, found);
    if |found| < 4 {
      NoMain(hand, FourTwoDouble, value, 8);
      NoneFound(hand, FourTwoDouble, value, 8);
      return [];
    }
    OfferedCards(hand, value, 4, found);
    var clone := EraseAll(hand, found);
    PairSearchStarts(hand, found, clone);
    var doublePokers: seq<Card> := [];
    while true
      invariant IsHand(clone) && PairSearch(hand, found, doublePokers, clone)
      invariant |doublePokers| == 0 || |doublePokers| == 2
      decreases |clone|
    {
      var double := FindDouble(clone, ZERO_VALUE);
      NothingOffered(clone, ZERO_VALUE, 2, double);
      if |double| < 2 {
        PairSearchEnds(hand, found, doublePokers, clone);
        NoFourTwoDouble(hand, value, found[0].value,
                        if doublePokers == [] then found[0].value else doublePokers[0].value);
        NoneFound(hand, FourTwoDouble, value, 8);
        return [];
      } else {
        PairTaken(clone, double);
        ghost var before := clone;
        clone := Erase(clone, double[0]);
        clone := Erase(clone, double[1]);
        if |doublePokers| == 0 {
          PairSearchGoesOn(hand, found, doublePokers, before, double);
          assert double == [double[0], double[1]];
          doublePokers := [double[0], double[1]];
        } else {
          if doublePokers[0].value == double[0].value {
            PairSearchGoesOn(hand, found, doublePokers, before, double);
            continue;
          } else {
            TwoPairsFound(hand, value, found, doublePokers, before, double);
            found := found + [doublePokers[0], doublePokers[1], double[0], double[1]];
            assert [doublePokers[0], doublePokers[1], double[0], double[1]] == doublePokers + double;
            return;
          }
        }
      }
    }
  }
}
