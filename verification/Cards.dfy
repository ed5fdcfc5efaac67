// Cards, hands of cards in ascending order, and the values they hold.

module Cards {
  import opened PokerInfo

  datatype Card = Card(value: int, suit: int)

  const FIRST_SUIT := 49
  const LAST_SUIT := 52

  predicate IsCard(c: Card)
  {
    && LOWEST <= c.value <= BIG_JOKER
    && FIRST_SUIT <= c.suit <= LAST_SUIT
    && (c.value >= SMALL_JOKER ==> c.suit == FIRST_SUIT)
  }

  /** The two characters a card is written with. */
  function Text(c: Card): seq<int>
  {
    [c.value, c.suit]
  }

  /** Whether a command parameter names a card. */
  predicate IsPoker(text: seq<int>)
  {
    if |text| != 2 then
      false
    else if text[0] < LOWEST || text[0] > BIG_JOKER then
      false
    else if text[1] < FIRST_SUIT || text[1] > LAST_SUIT then
      false
    else if (text[0] == SMALL_JOKER || text[0] == BIG_JOKER) && text[1] != FIRST_SUIT then
      false
    else
      true
  }

  lemma IsPokerMeansCard(text: seq<int>)
    ensures IsPoker(text) <==> exists c :: IsCard(c) && Text(c) == text
  {
    if IsPoker(text) {
      assert Text(Card(text[0], text[1])) == text;
    }
  }

  /** The order of the card sets: by value, then by suit. */
  predicate Less(c: Card, d: Card)
  {
    c.value < d.value || (c.value == d.value && c.suit < d.suit)
  }

  /** The cards of a set in the order in which the set is walked. */
  ghost predicate IsHand(hand: seq<Card>)
  {
    && (forall i :: 0 <= i < |hand| ==> IsCard(hand[i]))
    && (forall i, j :: 0 <= i < j < |hand| ==> Less(hand[i], hand[j]))
  }

  function ValueList(cards: seq<Card>): (values: seq<int>)
    ensures |values| == |cards|
    ensures forall i :: 0 <= i < |cards| ==> values[i] == cards[i].value
  {
    seq(|cards|, i requires 0 <= i < |cards| => cards[i].value)
  }

  /** The values of the cards, each as often as it occurs. */
  function Values(cards: seq<Card>): multiset<int>
  {
    multiset(ValueList(cards))
  }

  lemma ValuesAppend(a: seq<Card>, b: seq<Card>)
    ensures Values(a + b) == Values(a) + Values(b)
  {
    assert ValueList(a + b) == ValueList(a) + ValueList(b);
  }

  lemma ValuesOne(c: Card)
    ensures Values([c]) == multiset{c.value}
  {
    assert ValueList([c]) == [c.value];
  }

  /** The cards of value `x`, in order. */
  function CardsOf(hand: seq<Card>, x: int): seq<Card>
  {
    if hand == [] then []
    else
      var last := |hand| - 1;
      CardsOf(hand[..last], x) + if hand[last].value == x then [hand[last]] else []
  }

  lemma {:induction false} CardsOfCount(hand: seq<Card>, x: int)
    ensures |CardsOf(hand, x)| == Values(hand)[x]
  {
    if hand != [] {
      var last := |hand| - 1;
      assert hand == hand[..last] + [hand[last]];
      ValuesAppend(hand[..last], [hand[last]]);
      ValuesOne(hand[last]);
      CardsOfCount(hand[..last], x);
    }
  }

  /** In a hand the cards of a value come in strictly rising suits, so there are at most four. */
  lemma {:induction false} CardsOfAscend(hand: seq<Card>, x: int)
    requires IsHand(hand)
    ensures IsHand(CardsOf(hand, x))
    ensures forall c :: c in CardsOf(hand, x) <==> c in hand && c.value == x
  {
    if hand != [] {
      var last := |hand| - 1;
      CardsOfAscend(hand[..last], x);
      assert hand == hand[..last] + [hand[last]];
      forall c | c in hand && c.value == x
        ensures c in CardsOf(hand, x)
      {
        assert c in hand[..last] || c == hand[last];
      }
      var init := CardsOf(hand[..last], x);
      forall i | 0 <= i < |init|
        ensures Less(init[i], hand[last])
      {
        assert init[i] in hand[..last];
      }
    }
  }

  lemma {:induction false} OneValue(cards: seq<Card>, x: int)
    requires IsHand(cards) && forall i :: 0 <= i < |cards| ==> cards[i].value == x
    ensures |cards| <= 4 && (x >= SMALL_JOKER ==> |cards| <= 1)
    ensures cards != [] ==> cards[|cards| - 1].suit >= FIRST_SUIT + |cards| - 1
  {
    if |cards| > 1 {
      var last := |cards| - 1;
      OneValue(cards[..last], x);
      assert Less(cards[last - 1], cards[last]) && IsCard(cards[last]);
    }
  }

  lemma CountBound(hand: seq<Card>, x: int)
    requires IsHand(hand)
    ensures Values(hand)[x] <= 4
    ensures x >= SMALL_JOKER ==> Values(hand)[x] <= 1
    ensures Values(hand)[x] > 0 ==> LOWEST <= x <= BIG_JOKER
  {
    CardsOfCount(hand, x);
    CardsOfAscend(hand, x);
    OneValue(CardsOf(hand, x), x);
  }

  /** The set without `c`. */
  function Erase(hand: seq<Card>, c: Card): seq<Card>
  {
    if hand == [] then []
    else
      var last := |hand| - 1;
      Erase(hand[..last], c) + if hand[last] == c then [] else [hand[last]]
  }

  lemma {:induction false} EraseMembers(hand: seq<Card>, c: Card)
    requires IsHand(hand)
    ensures IsHand(Erase(hand, c))
    ensures forall d :: d in Erase(hand, c) <==> d in hand && d != c
  {
    if hand != [] {
      var last := |hand| - 1;
      EraseMembers(hand[..last], c);
      assert hand == hand[..last] + [hand[last]];
      var init := Erase(hand[..last], c);
      forall i | 0 <= i < |init|
        ensures Less(init[i], hand[last]) && IsCard(init[i])
      {
        assert init[i] in hand[..last];
      }
    }
  }

  lemma {:induction false} EraseAbsent(hand: seq<Card>, c: Card)
    requires c !in hand
    ensures Erase(hand, c) == hand
  {
    if hand != [] {
      EraseAbsent(hand[..|hand| - 1], c);
    }
  }

  lemma LastIsNew(hand: seq<Card>)
    requires IsHand(hand) && hand != []
    ensures hand[|hand| - 1] !in hand[..|hand| - 1]
  {
    var last := |hand| - 1;
    assert forall i :: 0 <= i < last ==> Less(hand[i], hand[last]);
  }

  /** Erasing a card that is there takes away exactly that card. */
  lemma {:induction false} EraseOne(hand: seq<Card>, c: Card)
    requires IsHand(hand) && c in hand
    ensures |Erase(hand, c)| == |hand| - 1
    ensures Values(hand) == Values(Erase(hand, c)) + multiset{c.value}
  {
    var last := |hand| - 1;
    var init, end := hand[..last], [hand[last]];
    assert hand == init + end;
    ValuesAppend(init, end);
    ValuesOne(hand[last]);
    LastIsNew(hand);
    if hand[last] == c {
      EraseAbsent(init, c);
      assert Erase(hand, c) == init;
    } else {
      EraseOne(init, c);
      assert Erase(hand, c) == Erase(init, c) + end;
      ValuesAppend(Erase(init, c), end);
    }
  }

  /** The cards of `taken` are different cards of `hand`. */
  ghost predicate DrawnFrom(hand: seq<Card>, taken: seq<Card>)
  {
    && (forall i :: 0 <= i < |taken| ==> taken[i] in hand)
    && (forall i, j :: 0 <= i < j < |taken| ==> taken[i] != taken[j])
  }

  /** `rest` is what remains of `hand` when `taken` is gone. */
  ghost predicate Remains(hand: seq<Card>, taken: seq<Card>, rest: seq<Card>)
  {
    && IsHand(rest)
    && (forall c :: c in rest <==> c in hand && c !in taken)
    && (forall x :: Values(rest)[x] + Values(taken)[x] == Values(hand)[x])
  }

  lemma RemainsOne(hand: seq<Card>, taken: seq<Card>, rest: seq<Card>, c: Card)
    requires Remains(hand, taken, rest) && c in rest
    ensures Remains(hand, taken + [c], Erase(rest, c))
  {
    EraseMembers(rest, c);
    EraseOne(rest, c);
    ValuesAppend(taken, [c]);
    ValuesOne(c);
  }

  /** Erases the cards of `taken` one after another. */
  method EraseAll(hand: seq<Card>, taken: seq<Card>) returns (rest: seq<Card>)
    requires IsHand(hand) && DrawnFrom(hand, taken)
    ensures Remains(hand, taken, rest)
  {
    rest := hand;
    var i := 0;
    while i < |taken|
      invariant 0 <= i <= |taken|
      invariant Remains(hand, taken[..i], rest)
    {
      assert taken[i] !in taken[..i];
      RemainsOne(hand, taken[..i], rest, taken[i]);
      assert taken[..i + 1] == taken[..i] + [taken[i]];
      rest := Erase(rest, taken[i]);
      i := i + 1;
    }
    assert taken[..i] == taken;
  }

  /** Any different cards of a hand have no more of a value than the hand. */
  lemma DrawnValues(hand: seq<Card>, taken: seq<Card>) returns (rest: seq<Card>)
    requires IsHand(hand) && DrawnFrom(hand, taken)
    ensures Remains(hand, taken, rest)
    ensures Values(taken) <= Values(hand)
    decreases |taken|
  {
    if taken == [] {
      rest := hand;
    } else {
      var last := |taken| - 1;
      rest := DrawnValues(hand, taken[..last]);
      assert taken == taken[..last] + [taken[last]];
      RemainsOne(hand, taken[..last], rest, taken[last]);
      rest := Erase(rest, taken[last]);
      assert forall x :: Values(rest)[x] >= 0 && Values(taken)[x] <= Values(hand)[x];
    }
  }

  /** A card of different cards is there once. */
  lemma {:induction false} CountDistinct(s: seq<Card>, c: Card)
    requires forall i, j :: 0 <= i < j < |s| ==> s[i] != s[j]
    ensures multiset(s)[c] <= 1
  {
    if s != [] {
      var last := |s| - 1;
      assert s == s[..last] + [s[last]];
      CountDistinct(s[..last], c);
      if s[last] == c {
        assert c !in s[..last];
      }
    }
  }
}
