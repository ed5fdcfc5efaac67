// The search of a hand for chains of triples, alone or with kickers.

module ThreeChainFinder {
  import opened PokerInfo
  import opened Patterns
  import opened Cards
  import opened PokerFinder
  import opened KickerFinder
  import opened ChainSearch

  // ------------------------------------------------------------ chains of triples

  /** `found` are three cards each of the values x .. x + k - 1. */
  ghost predicate Triples(hand: seq<Card>, found: seq<Card>, x: int, k: nat)
  {
    && DrawnFrom(hand, found) && |found| == 3 * k
    && forall y :: Values(found)[y] == if x <= y < x + k then 3 else 0
  }

  /** The outcome of the search for a chain of `k` triples above `value`. */
  ghost predicate TriplesFound(hand: seq<Card>, value: int, k: nat, found: seq<Card>)
  {
    if found == [] then NoChainAbove(Values(hand), value, k, 3)
    else exists x :: x > value && x + k <= TWO && Triples(hand, found, x, k)
  }

  /** What the search knows: one card of each triple taken out so far, and the triples by their first cards. */
  ghost predicate TripleSearch(hand: seq<Card>, value: int, curr: seq<Card>, firsts: seq<Card>,
                               triples: map<Card, seq<Card>>)
  {
    && IsHand(curr) && (forall c :: c in curr ==> c in hand)
    && DrawnFrom(hand, firsts)
    && (forall d :: d in firsts ==> d.value > value && d in triples && IsTriple(hand, curr, triples[d], d))
    && (forall y :: Values(firsts)[y] == 0 ==> Values(curr)[y] == Values(hand)[y])
    && (forall y :: Values(firsts)[y] > 0 ==> Values(firsts)[y] == 1 && Values(curr)[y] <= 1)
  }

  ghost predicate IsTriple(hand: seq<Card>, curr: seq<Card>, three: seq<Card>, first: Card)
  {
    && |three| == 3 && three[0] == first && DrawnFrom(hand, three)
    && forall i :: 0 <= i < 3 ==> three[i].value == first.value && three[i] !in curr
  }

  lemma TripleSearchStarts(hand: seq<Card>, value: int)
    requires IsHand(hand)
    ensures TripleSearch(hand, value, hand, [], map[])
  {
  }

  lemma TripleTaken(hand: seq<Card>, value: int, curr: seq<Card>, firsts: seq<Card>, triples: map<Card, seq<Card>>,
                    three: seq<Card>, rest: seq<Card>)
    requires IsHand(hand) && TripleSearch(hand, value, curr, firsts, triples)
    requires Offers(curr, value, 3, three) && three != [] && Remains(curr, three, rest)
    ensures TripleSearch(hand, value, rest, firsts + [three[0]], triples[three[0] := three])
    ensures |rest| < |curr|
  {
    hide IsHand, Offers, Values, Remains;
    OfferedCards(curr, value, 3, three);
    RemainsFewer(curr, three, rest);
    var x := three[0].value;
    CountBound(curr, x);
    assert Values(firsts)[x] == 0;
    TakenCounts(hand, value, curr, firsts, triples, three, rest, x);
    TakenCards(hand, value, curr, firsts, triples, three, rest);
  }

  lemma TakenCounts(hand: seq<Card>, value: int, curr: seq<Card>, firsts: seq<Card>, triples: map<Card, seq<Card>>,
                    three: seq<Card>, rest: seq<Card>, x: int)
    requires TripleSearch(hand, value, curr, firsts, triples)
    requires three != [] && three[0].value == x && Values(firsts)[x] == 0 && Values(curr)[x] <= 4
    requires Remains(curr, three, rest) && forall y :: Values(three)[y] == if y == x then 3 else 0
    ensures var more := firsts + [three[0]];
            && (forall y :: Values(more)[y] == 0 ==> Values(rest)[y] == Values(hand)[y])
            && (forall y :: Values(more)[y] > 0 ==> Values(more)[y] == 1 && Values(rest)[y] <= 1)
  {
    hide IsHand, Values;
    ValuesAppend(firsts, [three[0]]);
    ValuesOne(three[0]);
    forall y
      ensures Values(rest)[y] == if y == x then Values(curr)[y] - 3 else Values(curr)[y]
    {
      assert Values(rest)[y] + Values(three)[y] == Values(curr)[y];
    }
  }

  lemma TakenCards(hand: seq<Card>, value: int, curr: seq<Card>, firsts: seq<Card>, triples: map<Card, seq<Card>>,
                   three: seq<Card>, rest: seq<Card>)
    requires TripleSearch(hand, value, curr, firsts, triples)
    requires |three| == 3 && three[0].value > value && DrawnFrom(curr, three)
    requires forall i :: 0 <= i < 3 ==> three[i].value == three[0].value
    requires Remains(curr, three, rest) && Values(firsts)[three[0].value] == 0
    ensures var more, map1 := firsts + [three[0]], triples[three[0] := three];
            && IsHand(rest) && (forall c :: c in rest ==> c in hand)
            && DrawnFrom(hand, more)
            && forall d :: d in more ==> d.value > value && d in map1 && IsTriple(hand, rest, map1[d], d)
  {
    hide IsHand, Values;
    var e := three[0];
    assert e !in firsts by { if e in firsts { CardCounts(firsts, e); } }
    forall d | d in firsts
      ensures d != e && IsTriple(hand, rest, triples[d], d)
    {
      assert IsTriple(hand, curr, triples[d], d);
    }
  }

  lemma RemainsFewer(hand: seq<Card>, taken: seq<Card>, rest: seq<Card>)
    requires Remains(hand, taken, rest) && taken != []
    ensures |rest| < |hand|
  {
    assert Values(rest) + Values(taken) == Values(hand);
    assert |rest| == |Values(rest)| && |taken| == |Values(taken)| && |hand| == |Values(hand)|;
  }

  lemma TripleSearchSorted(hand: seq<Card>, value: int, curr: seq<Card>, firsts: seq<Card>,
                           triples: map<Card, seq<Card>>)
    requires TripleSearch(hand, value, curr, firsts, triples) && Distinct(firsts)
    ensures TripleSearch(hand, value, curr, SortList(firsts), triples)
  {
    hide IsHand, Values, SortList, IsTriple;
    var sorted := SortList(firsts);
    SortKeeps(firsts);
    forall d | d in sorted
      ensures d in firsts && d in hand
    {
      assert d in multiset(sorted);
      var j :| 0 <= j < |firsts| && firsts[j] == d;
    }
    SortedDistinct(firsts);
    forall i, j | 0 <= i < j < |sorted| ensures sorted[i] != sorted[j] { DistinctIndices(sorted, i, j); }
  }

  /** When no triple is left, the first cards hold every chain of triples. */
  lemma TripleSearchEnds(hand: seq<Card>, value: int, curr: seq<Card>, firsts: seq<Card>,
                         triples: map<Card, seq<Card>>, k: nat)
    requires TripleSearch(hand, value, curr, firsts, triples)
    requires forall y :: y > value ==> Values(curr)[y] < 3
    requires NoChainAbove(Values(firsts), value, k, 1)
    ensures NoChainAbove(Values(hand), value, k, 3)
  {
    hide IsHand, Values;
    forall x | x > value
      ensures !ChainIn(Values(hand), x, k, 3)
    {
      if ChainIn(Values(hand), x, k, 3) { ChainOfFirsts(hand, value, curr, firsts, triples, x, k); }
    }
  }

  lemma ChainOfFirsts(hand: seq<Card>, value: int, curr: seq<Card>, firsts: seq<Card>, triples: map<Card, seq<Card>>,
                      x: int, k: nat)
    requires TripleSearch(hand, value, curr, firsts, triples)
    requires forall y :: y > value ==> Values(curr)[y] < 3
    requires x > value && ChainIn(Values(hand), x, k, 3)
    ensures ChainIn(Values(firsts), x, k, 1)
  {
    hide IsHand, Values;
    forall y | x <= y < x + k
      ensures Values(firsts)[y] >= 1
    {
      assert Values(hand)[y] >= 3;
    }
  }

  /** Collects the triples of the cards of a chain, in its order. */
  method CollectTriples(chain: seq<Card>, triples: map<Card, seq<Card>>, ghost hand: seq<Card>, ghost value: int,
                        ghost curr: seq<Card>, ghost firsts: seq<Card>)
    returns (found: seq<Card>)
    requires TripleSearch(hand, value, curr, firsts, triples)
    requires chain != [] && DrawnFrom(firsts, chain) && ChainCards(chain, chain[0].value, 1)
    ensures Triples(hand, found, chain[0].value, |chain|)
  {
    hide IsHand, Values;
    ghost var x := chain[0].value;
    found := [];
    EmptyTriples(hand, x);
    var t := 0;
    while t < |chain|
      invariant 0 <= t <= |chain|
      invariant Triples(hand, found, x, t)
    {
      var curr := chain[t];
      if curr in triples {
        TriplesGrow(hand, found, x, t, triples[curr]);
        found := found + triples[curr][..3];
        assert triples[curr][..3] == triples[curr];
      } else {
        assert false;
      }
      t := t + 1;
    }
  }

  lemma EmptyTriples(hand: seq<Card>, x: int)
    ensures Triples(hand, [], x, 0)
  {
  }

  lemma TriplesGrow(hand: seq<Card>, found: seq<Card>, x: int, t: nat, three: seq<Card>)
    requires Triples(hand, found, x, t) && |three| == 3 && DrawnFrom(hand, three)
    requires forall i :: 0 <= i < 3 ==> three[i].value == x + t
    ensures Triples(hand, found + three, x, t + 1)
  {
    SameValues(three, x + t);
    ValuesAppend(found, three);
    hide Values;
    forall i, j | 0 <= i < |found| && 0 <= j < 3
      ensures found[i] != three[j]
    {
      CardCounts(found, found[i]);
    }
  }

  method FindTriples(hand: seq<Card>, value: int, k: nat) returns (found: seq<Card>)
    requires IsHand(hand) && 0 < k
    ensures TriplesFound(hand, value, k, found)
  {
    hide IsHand, TripleSearch, Offers, Values, DrawnFrom, SearchResult, NoChainAbove, SortList, Distinct;
    var userPokerListCurr := hand;
    var threeTypePokers: map<Card, seq<Card>> := map[];
    var pokersSingleChain: seq<Card> := [];
    TripleSearchStarts(hand, value);
    ShortList([], value, k, 1);
    while true
      invariant IsHand(userPokerListCurr)
      invariant TripleSearch(hand, value, userPokerListCurr, pokersSingleChain, threeTypePokers)
      invariant NoChainAbove(Values(pokersSingleChain), value, k, 1)
      decreases |userPokerListCurr|
    {
      var three := FindThree(userPokerListCurr, value);
      NothingOffered(userPokerListCurr, value, 3, three);
      if |three| == 0 {
        TripleSearchEnds(hand, value, userPokerListCurr, pokersSingleChain, threeTypePokers, k);
        return [];
      }
      OfferedCards(userPokerListCurr, value, 3, three);
      ghost var before, singles, triples := userPokerListCurr, pokersSingleChain, threeTypePokers;
      userPokerListCurr := EraseAll(userPokerListCurr, three);
      // FindThree offers only values above `value` and below the jokers
      if three[0].value < value || three[0].value > TWO {
        assert false;
      }
      TripleTaken(hand, value, before, singles, triples, three, userPokerListCurr);
      threeTypePokers := threeTypePokers[three[0] := three];
      pokersSingleChain := pokersSingleChain + [three[0]];
      if |pokersSingleChain| < k {
        ShortList(pokersSingleChain, value, k, 1);
        continue;
      }
      FirstsDistinct(hand, value, userPokerListCurr, pokersSingleChain, threeTypePokers);
      ghost var list := pokersSingleChain;
      var chain;
      pokersSingleChain, chain := FindSingleChainInner(pokersSingleChain, value, k);
      SearchMeaning(list, value, k, chain);
      if |chain| == k {
        found := CollectTriples(chain, threeTypePokers, hand, value, userPokerListCurr, list);
        return;
      }
      SortKeeps(list);
      TripleSearchSorted(hand, value, userPokerListCurr, list, threeTypePokers);
    }
  }

  lemma FirstsDistinct(hand: seq<Card>, value: int, curr: seq<Card>, firsts: seq<Card>, triples: map<Card, seq<Card>>)
    requires TripleSearch(hand, value, curr, firsts, triples)
    ensures Distinct(firsts)
  {
    hide IsHand, Values;
    forall d
      ensures multiset(firsts)[d] <= 1
    {
      CountDistinct(firsts, d);
    }
  }

  lemma SearchMeaning(list: seq<Card>, value: int, k: nat, chain: seq<Card>)
    requires SearchResult(list, value, k, 1, chain) && 0 < k
    ensures |chain| == 0 || |chain| == k
    ensures chain == [] ==> NoChainAbove(Values(list), value, k, 1)
    ensures chain != [] ==>
      && chain[0].value > value && chain[0].value + k <= TWO
      && DrawnFrom(list, chain) && ChainCards(chain, chain[0].value, 1)
  {
  }

  lemma {:induction false} TriplesRoom(m: multiset<int>, x: int, k: nat)
    requires ChainIn(m, x, k, 3)
    ensures |m| >= 3 * k
  {
    if k > 0 {
      var y := x + k - 1;
      TriplesRoom(m[y := m[y] - 3], x, k - 1);
    }
  }

  lemma TooFewForTriples(hand: seq<Card>, value: int, k: nat)
    requires |hand| < 3 * k
    ensures TriplesFound(hand, value, k, [])
  {
    forall x | x > value
      ensures !ChainIn(Values(hand), x, k, 3)
    {
      if ChainIn(Values(hand), x, k, 3) { TriplesRoom(Values(hand), x, k); }
    }
  }

  lemma TriplesAnswer(hand: seq<Card>, value: int, k: nat, found: seq<Card>)
    requires IsHand(hand) && 2 <= k <= 6 && TriplesFound(hand, value, k, found)
    ensures Answers(hand, ThreeChain, value, 3 * k, found)
  {
    if found != [] {
      var x :| x > value && x + k <= TWO && Triples(hand, found, x, k);
      AnswerFound(hand, ThreeChain, value, 3 * k, found, x);
    } else {
      NoTriplesNoAnswer(hand, ThreeChain, value, k);
    }
  }

  /** Without a chain of triples there is none with kickers either. */
  lemma NoTriplesNoAnswer(hand: seq<Card>, kind: Kind, value: int, k: nat)
    requires NoChainAbove(Values(hand), value, k, 3)
    requires kind in {ThreeChain, ThreeChainSingle, ThreeChainDouble}
    ensures NoAnswer(hand, kind, value, ChainCost(kind) * k)
  {
    hide Values;
    forall x, m: multiset<int> | x > value && m <= Values(hand)
      ensures !Matches(m, Hand(kind, x, ChainCost(kind) * k))
    {
      if Matches(m, Hand(kind, x, ChainCost(kind) * k)) { TriplesInHand(hand, kind, x, k, m); }
    }
  }

  /** The number of cards for each triple of a chain of this kind. */
  ghost function ChainCost(kind: Kind): nat
  {
    if kind == ThreeChainSingle then 4 else if kind == ThreeChainDouble then 5 else 3
  }

  lemma TriplesInHand(hand: seq<Card>, kind: Kind, x: int, k: nat, m: multiset<int>)
    requires kind in {ThreeChain, ThreeChainSingle, ThreeChainDouble}
    requires m <= Values(hand) && Matches(m, Hand(kind, x, ChainCost(kind) * k))
    ensures ChainIn(Values(hand), x, k, 3)
    ensures forall y :: x <= y < x + k ==> m[y] == 3
  {
    hide Values;
    forall y | x <= y < x + k
      ensures m[y] == 3 && Values(hand)[y] >= 3
    {
      assert m[y] == 3;
      assert m[y] <= Values(hand)[y];
    }
  }

  method FindThreeChain(hand: seq<Card>, value: int, length: nat) returns (found: seq<Card>)
    requires IsHand(hand) && 6 <= length < 20 && length % 3 == 0
    ensures TriplesFound(hand, value, length / 3, found)
    ensures Answers(hand, ThreeChain, value, length, found)
  {
    hide IsHand, TriplesFound, Answers;
    var k := length / 3;
    if |hand| < length {
      TooFewForTriples(hand, value, k);
      found := [];
    } else {
      found := FindTriples(hand, value, k);
    }
    TriplesAnswer(hand, value, k, found);
  }

  // ----------------------------------------------------------------- kickers to a chain

  /**
   * Cards with `c` of each of their values, all from a run of `k` values or among the values of `s`,
   * are not more than the two together allow.
   */
  lemma {:induction false} ValuesBound(m: multiset<int>, x: int, k: nat, s: multiset<int>, c: nat)
    requires c == 1 || c == 2
    requires forall y :: m[y] > 0 ==> m[y] <= c && (x <= y < x + k || m[y] <= s[y])
    ensures |m| <= |s| + if c == 2 then 2 * k else k
  {
    if k == 0 {
      assert forall y :: m[y] <= s[y];
      assert s == m + (s - m);
    } else {
      ValuesBound(m[x + k - 1 := 0], x, k - 1, s, c);
    }
  }

  /** The same for a chain of triples with kickers: the triples count like kickers. */
  lemma {:induction false} ChainBound(m: multiset<int>, z: int, n: nat, x: int, k: nat, s: multiset<int>, c: nat)
    requires c == 1 || c == 2
    requires forall y :: z <= y < z + n ==> m[y] == 3
    requires forall y :: !(z <= y < z + n) ==> m[y] <= c
    requires forall y :: m[y] >= c ==> x <= y < x + k || s[y] >= c
    requires forall y :: !(z <= y < z + n) && m[y] > 0 ==> m[y] == c
    ensures |m| <= |s| + (if c == 2 then 2 * k else k) + (if c == 2 then n else 2 * n)
  {
    if n == 0 {
      ValuesBound(m, x, k, s, c);
    } else {
      var y := z + n - 1;
      ChainBound(m[y := c], z, n - 1, x, k, s, c);
    }
  }

  /** The number of cards of a chain of `k` triples with `k` kickers of `c` cards. */
  ghost function KickedLength(k: nat, c: nat): nat
  {
    if c == 2 then 5 * k else 4 * k
  }

  /** With fewer than `k` further values of `c` cards beside the found chain no hand with kickers is possible. */
  lemma NotEnoughKickers(hand: seq<Card>, value: int, k: nat, x: int, kickers: seq<Card>, c: nat)
    requires (c == 1 || c == 2) && |kickers| < if c == 2 then 2 * k else k
    requires forall y :: Values(hand)[y] >= c ==> x <= y < x + k || Values(kickers)[y] >= c
    ensures NoAnswer(hand, if c == 2 then ThreeChainDouble else ThreeChainSingle, value, KickedLength(k, c))
  {
    var kind := if c == 2 then ThreeChainDouble else ThreeChainSingle;
    var n := KickedLength(k, c);
    assert |Values(kickers)| == |kickers|;
    hide Values;
    forall z, m: multiset<int> | z > value && m <= Values(hand)
      ensures !Matches(m, Hand(kind, z, n))
    {
      if Matches(m, Hand(kind, z, n)) {
        TriplesInHand(hand, kind, z, k, m);
        forall y | m[y] >= c ensures x <= y < x + k || Values(kickers)[y] >= c {
          assert m[y] <= Values(hand)[y];
        }
        ChainBound(m, z, k, x, k, Values(kickers), c);
      }
    }
  }

  /** A chain of triples and enough single cards or pairs beside it are an answer. */
  lemma ChainWithKickers(hand: seq<Card>, value: int, k: nat, chain: seq<Card>, x: int, kickers: seq<Card>, c: nat)
    requires (c == 1 || c == 2) && 2 <= k && KickedLength(k, c) < 20 && x > value && x + k <= TWO
    requires IsHand(hand) && Triples(hand, chain, x, k) && DrawnFrom(hand, kickers)
    requires forall i :: 0 <= i < |kickers| ==> kickers[i] !in chain
    requires |kickers| == if c == 2 then 2 * k else k
    requires forall y :: Values(kickers)[y] == 0 || (Values(kickers)[y] == c && !(x <= y < x + k))
    ensures Answers(hand, if c == 2 then ThreeChainDouble else ThreeChainSingle, value, KickedLength(k, c),
                    chain + kickers)
  {
    AddKickers(hand, chain, kickers);
    var m := Values(chain + kickers);
    hide Values, IsHand, DrawnFrom;
    ChainShape(m, x, k, c, Values(kickers));
    AnswerFound(hand, if c == 2 then ThreeChainDouble else ThreeChainSingle, value, KickedLength(k, c),
                chain + kickers, x);
  }

  lemma ChainShape(m: multiset<int>, x: int, k: nat, c: nat, kickers: multiset<int>)
    requires (c == 1 || c == 2) && 2 <= k && |m| == KickedLength(k, c) < 20 && x + k <= TWO
    requires forall y :: kickers[y] == 0 || (kickers[y] == c && !(x <= y < x + k))
    requires forall y :: m[y] == (if x <= y < x + k then 3 else 0) + kickers[y]
    ensures Matches(m, Hand(if c == 2 then ThreeChainDouble else ThreeChainSingle, x, KickedLength(k, c)))
  {
  }

  // ------------------------------------------------------------- triples and singles

  /** What the search for single kickers knows. */
  ghost predicate SingleSearch(hand: seq<Card>, chain: seq<Card>, x: int, k: nat, singles: seq<Card>, clone: seq<Card>)
  {
    && IsHand(clone) && (forall c :: c in clone ==> c in hand && c !in chain && c !in singles)
    && DrawnFrom(hand, singles) && (forall i :: 0 <= i < |singles| ==> singles[i] !in chain)
    && (forall y :: Values(singles)[y] == 0 || (Values(singles)[y] == 1 && !(x <= y < x + k)))
    && (forall c :: c in hand && !(x <= c.value < x + k) && Values(singles)[c.value] == 0 ==> c in clone)
  }

  lemma SingleSearchStarts(hand: seq<Card>, chain: seq<Card>, x: int, k: nat, clone: seq<Card>)
    requires Triples(hand, chain, x, k) && Remains(hand, chain, clone)
    ensures SingleSearch(hand, chain, x, k, [], clone)
  {
    forall c | c in hand && !(x <= c.value < x + k)
      ensures c !in chain
    {
      if c in chain { CardCounts(chain, c); }
    }
  }

  lemma SingleSearchEnds(hand: seq<Card>, value: int, chain: seq<Card>, x: int, k: nat, singles: seq<Card>)
    requires SingleSearch(hand, chain, x, k, singles, []) && |singles| < k
    ensures NoAnswer(hand, ThreeChainSingle, value, 4 * k)
  {
    forall y | Values(hand)[y] >= 1
      ensures x <= y < x + k || Values(singles)[y] >= 1
    {
      var c := CountedCard(hand, y);
    }
    NotEnoughKickers(hand, value, k, x, singles, 1);
  }

  lemma SingleSearchNext(hand: seq<Card>, chain: seq<Card>, x: int, k: nat, singles: seq<Card>, clone: seq<Card>,
                         d: Card)
    requires SingleSearch(hand, chain, x, k, singles, clone) && d in clone
    ensures IsHand(Erase(clone, d)) && |Erase(clone, d)| < |clone|
    ensures Values(singles)[d.value] > 0 || x <= d.value < x + k ==>
              SingleSearch(hand, chain, x, k, singles, Erase(clone, d))
    ensures Values(singles)[d.value] == 0 && !(x <= d.value < x + k) ==>
              SingleSearch(hand, chain, x, k, singles + [d], Erase(clone, d))
  {
    hide IsHand, Values, Erase;
    EraseMembers(clone, d);
    EraseOne(clone, d);
    ValuesAppend(singles, [d]);
    ValuesOne(d);
  }

  /** Whether a card of the list has this value. */
  method HasValue(cards: seq<Card>, value: int) returns (finded: bool)
    ensures finded <==> Values(cards)[value] > 0
  {
    finded := false;
    var i := 0;
    while i < |cards|
      invariant 0 <= i <= |cards|
      invariant !finded && forall j :: 0 <= j < i ==> cards[j].value != value
    {
      if cards[i].value == value {
        CardCounts(cards, cards[i]);
        finded := true;
        return;
      }
      i := i + 1;
    }
    CountsZero(cards, value);
  }

  method FindThreeChainAndSingle(hand: seq<Card>, value: int, length: nat) returns (found: seq<Card>)
    requires IsHand(hand) && 8 <= length < 20 && length % 4 == 0
    ensures Answers(hand, ThreeChainSingle, value, length, found)
  {
    hide IsHand, TriplesFound, Triples, Answers, NoAnswer, SingleSearch, Offers, Values, DrawnFrom;
    if |hand| < length {
      TooFewCards(hand, ThreeChainSingle, value, length);
      NoneFound(hand, ThreeChainSingle, value, length);
      return [];
    }
    var chain := FindThreeChain(hand, value, length / 4 * 3);
    var k := length / 4;
    if |chain| == 0 {
      TriplesMissing(hand, value, k, chain);
      NoTriplesNoAnswer(hand, ThreeChainSingle, value, k);
      NoneFound(hand, ThreeChainSingle, value, length);
      return [];
    }
    ghost var x := TriplesStart(hand, value, k, chain);
    var clone := EraseAll(hand, chain);
    SingleSearchStarts(hand, chain, x, k, clone);
    var singlePokers: seq<Card> := [];
    while true
      invariant IsHand(clone) && |singlePokers| < k
      invariant SingleSearch(hand, chain, x, k, singlePokers, clone)
      decreases |clone|
    {
      var single := FindSingle(clone, ZERO_VALUE);
      NothingOffered(clone, ZERO_VALUE, 1, single);
      NoCards(clone, single);
      if |single| < 1 {
        SingleSearchEnds(hand, value, chain, x, k, singlePokers);
        NoneFound(hand, ThreeChainSingle, value, length);
        return [];
      }
      OfferedCard(clone, single);
      SingleSearchNext(hand, chain, x, k, singlePokers, clone, single[0]);
      clone := Erase(clone, single[0]);
      var finded := HasValue(singlePokers, single[0].value);
      if finded {
        continue;
      }
      finded := HasValue(chain, single[0].value);
      TriplesValue(hand, chain, x, k, single[0].value);
      if finded {
        continue;
      }
      singlePokers := singlePokers + [single[0]];
      if |singlePokers| >= k {
        SinglesComplete(hand, value, chain, x, k, singlePokers, clone);
        found := chain + singlePokers;
        return;
      }
    }
  }

  lemma OfferedCard(hand: seq<Card>, single: seq<Card>)
    requires IsHand(hand) && Offers(hand, ZERO_VALUE, 1, single) && single != []
    ensures single[0] in hand
  {
    OfferedCards(hand, ZERO_VALUE, 1, single);
  }

  lemma SinglesComplete(hand: seq<Card>, value: int, chain: seq<Card>, x: int, k: nat, singles: seq<Card>,
                        clone: seq<Card>)
    requires IsHand(hand) && Triples(hand, chain, x, k) && SingleSearch(hand, chain, x, k, singles, clone)
    requires |singles| == k && 2 <= k < 5 && x > value && x + k <= TWO
    ensures Answers(hand, ThreeChainSingle, value, 4 * k, chain + singles)
  {
    ChainWithKickers(hand, value, k, chain, x, singles, 1);
  }

  lemma TriplesMissing(hand: seq<Card>, value: int, k: nat, chain: seq<Card>)
    requires TriplesFound(hand, value, k, chain)
    ensures chain == [] ==> NoChainAbove(Values(hand), value, k, 3)
  {
  }

  lemma TriplesStart(hand: seq<Card>, value: int, k: nat, chain: seq<Card>) returns (x: int)
    requires TriplesFound(hand, value, k, chain) && chain != []
    ensures x > value && x + k <= TWO && Triples(hand, chain, x, k) && DrawnFrom(hand, chain)
  {
    x :| x > value && x + k <= TWO && Triples(hand, chain, x, k);
  }

  lemma TriplesValue(hand: seq<Card>, chain: seq<Card>, x: int, k: nat, y: int)
    requires Triples(hand, chain, x, k)
    ensures Values(chain)[y] > 0 <==> x <= y < x + k
  {
  }

  // --------------------------------------------------------------- triples and pairs

  /** What the search for pairs as kickers knows. */
  ghost predicate DoubleSearch(hand: seq<Card>, chain: seq<Card>, x: int, k: nat, doubles: seq<Card>, clone: seq<Card>)
  {
    && IsHand(clone) && (forall c :: c in clone ==> c in hand && c !in chain && c !in doubles)
    && DrawnFrom(hand, doubles) && (forall i :: 0 <= i < |doubles| ==> doubles[i] !in chain)
    && (forall y :: Values(doubles)[y] == 0 || (Values(doubles)[y] == 2 && !(x <= y < x + k)))
    && (forall y :: x <= y < x + k ==> Values(clone)[y] <= 1)
    && (forall y :: !(x <= y < x + k) && Values(doubles)[y] == 0 ==> Values(clone)[y] == Values(hand)[y])
  }

  lemma DoubleSearchStarts(hand: seq<Card>, chain: seq<Card>, x: int, k: nat, clone: seq<Card>)
    requires IsHand(hand) && Triples(hand, chain, x, k) && Remains(hand, chain, clone)
    ensures DoubleSearch(hand, chain, x, k, [], clone)
  {
    hide Values;
    assert forall y :: Values([])[y] == 0 by { SameValues([], 0); }
    forall y
      ensures Values(clone)[y] == Values(hand)[y] - if x <= y < x + k then 3 else 0
      ensures Values(hand)[y] <= 4
    {
      CountBound(hand, y);
      assert Values(clone)[y] + Values(chain)[y] == Values(hand)[y];
    }
  }

  lemma DoubleSearchEnds(hand: seq<Card>, value: int, chain: seq<Card>, x: int, k: nat, doubles: seq<Card>,
                         clone: seq<Card>)
    requires IsHand(hand) && DoubleSearch(hand, chain, x, k, doubles, clone) && |doubles| < 2 * k
    requires forall y :: y > ZERO_VALUE ==> Values(clone)[y] < 2
    ensures NoAnswer(hand, ThreeChainDouble, value, 5 * k)
  {
    hide Values;
    forall y | Values(hand)[y] >= 2
      ensures x <= y < x + k || Values(doubles)[y] >= 2
    {
      CountBound(hand, y);
    }
    NotEnoughKickers(hand, value, k, x, doubles, 2);
  }

  lemma DoubleSearchNext(hand: seq<Card>, chain: seq<Card>, x: int, k: nat, doubles: seq<Card>, clone: seq<Card>,
      double: seq<Card>)
    requires DoubleSearch(hand, chain, x, k, doubles, clone)
    requires IsHand(clone) && Offers(clone, ZERO_VALUE, 2, double) && double != []
    ensures |double| == 2
    ensures var left := Erase(Erase(clone, double[0]), double[1]);
            && IsHand(left) && |left| < |clone|
            && (Values(doubles)[double[0].value] > 0 ==> DoubleSearch(hand, chain, x, k, doubles, left))
            && (Values(doubles)[double[0].value] == 0 ==> DoubleSearch(hand, chain, x, k, doubles + double, left))
  {
    hide IsHand, Values, Offers, Erase;
    OfferedCards(clone, ZERO_VALUE, 2, double);
    var left := Erase(Erase(clone, double[0]), double[1]);
    PairTaken(clone, double);
    if Values(doubles)[double[0].value] > 0 {
      DoubleDropped(hand, chain, x, k, doubles, clone, double, left);
    } else {
      DoubleKept(hand, chain, x, k, doubles, clone, double, left);
    }
  }

  lemma DoubleDropped(hand: seq<Card>, chain: seq<Card>, x: int, k: nat, doubles: seq<Card>, clone: seq<Card>,
                      double: seq<Card>, left: seq<Card>)
    requires DoubleSearch(hand, chain, x, k, doubles, clone) && PairLeft(clone, double, left)
    requires Values(doubles)[double[0].value] > 0
    ensures DoubleSearch(hand, chain, x, k, doubles, left)
  {
    hide IsHand, Values;
  }

  lemma DoubleKept(hand: seq<Card>, chain: seq<Card>, x: int, k: nat, doubles: seq<Card>, clone: seq<Card>,
                   double: seq<Card>, left: seq<Card>)
    requires DoubleSearch(hand, chain, x, k, doubles, clone) && PairLeft(clone, double, left)
    requires Values(doubles)[double[0].value] == 0
    ensures DoubleSearch(hand, chain, x, k, doubles + double, left)
  {
    hide IsHand, Values;
    ValuesAppend(doubles, double);
  }

  method FindThreeChainAndDouble(hand: seq<Card>, value: int, length: nat) returns (found: seq<Card>)
    requires IsHand(hand) && 10 <= length < 20 && length % 5 == 0
    ensures Answers(hand, ThreeChainDouble, value, length, found)
  {
    hide IsHand, TriplesFound, Triples, Answers, NoAnswer, DoubleSearch, Offers, Values, DrawnFrom, Erase;
    if |hand| < length {
      TooFewCards(hand, ThreeChainDouble, value, length);
      NoneFound(hand, ThreeChainDouble, value, length);
      return [];
    }
    var chain := FindThreeChain(hand, value, length / 5 * 3);
    var k := length / 5;
    if |chain| == 0 {
      TriplesMissing(hand, value, k, chain);
      NoTriplesNoAnswer(hand, ThreeChainDouble, value, k);
      NoneFound(hand, ThreeChainDouble, value, length);
      return [];
    }
    ghost var x := TriplesStart(hand, value, k, chain);
    var clone := EraseAll(hand, chain);
    DoubleSearchStarts(hand, chain, x, k, clone);
    var doublePokers: seq<Card> := [];
    while true
      invariant IsHand(clone) && |doublePokers| < 2 * k && |doublePokers| % 2 == 0
      invariant DoubleSearch(hand, chain, x, k, doublePokers, clone)
      decreases |clone|
    {
      var double := FindDouble(clone, ZERO_VALUE);
      NothingOffered(clone, ZERO_VALUE, 2, double);
      if |double| < 2 {
        DoubleSearchEnds(hand, value, chain, x, k, doublePokers, clone);
        NoneFound(hand, ThreeChainDouble, value, length);
        return [];
      }
      DoubleSearchNext(hand, chain, x, k, doublePokers, clone, double);
      clone := Erase(clone, double[0]);
      clone := Erase(clone, double[1]);
      var finded := HasValue(doublePokers, double[0].value);
      if finded {
        continue;
      }
      assert double == [double[0], double[1]];
      doublePokers := doublePokers + [double[0], double[1]];
      if |doublePokers| >= 2 * k {
        DoublesComplete(hand, value, chain, x, k, doublePokers, clone);
        found := chain + doublePokers;
        return;
      }
    }
  }

  lemma DoublesComplete(hand: seq<Card>, value: int, chain: seq<Card>, x: int, k: nat, doubles: seq<Card>,
                        clone: seq<Card>)
    requires IsHand(hand) && Triples(hand, chain, x, k) && DoubleSearch(hand, chain, x, k, doubles, clone)
    requires |doubles| == 2 * k && 2 <= k < 4 && x > value && x + k <= TWO
    ensures Answers(hand, ThreeChainDouble, value, 5 * k, chain + doubles)
  {
    ChainWithKickers(hand, value, k, chain, x, doubles, 2);
  }
}
