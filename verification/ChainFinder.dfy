// The search of a hand for chains of singles, pairs and triples.

module ChainFinder {
  import opened PokerInfo
  import opened Patterns
  import opened Cards
  import opened PokerArchive
  import opened PokerFinder
  import opened ChainSearch
  import PokerParser

  // -------------------------------------------------- the cards that may form a chain

  function Take(group: seq<Card>, c: nat): seq<Card>
  {
    if c <= |group| then group[..c] else group
  }

  /** The first `c` cards of each group. */
  function FirstsOf(groups: seq<seq<Card>>, c: nat): seq<Card>
  {
    if groups == [] then []
    else
      var last := |groups| - 1;
      FirstsOf(groups[..last], c) + Take(groups[last], c)
  }

  lemma GroupsLarge(hand: seq<Card>, n: nat, c: nat)
    requires IsHand(hand) && 0 < n && c <= n
    ensures forall j :: 0 <= j < |Groups(hand, n, BIG_JOKER)| ==> c <= |Groups(hand, n, BIG_JOKER)[j]|
  {
    forall j | 0 <= j < |Groups(hand, n, BIG_JOKER)| { GroupAt(hand, n, BIG_JOKER, j); }
  }

  /** `firsts` are `c` cards of each value up to `top` that occurs exactly `n` times. */
  ghost predicate Firsts(hand: seq<Card>, firsts: seq<Card>, n: nat, top: int, c: nat)
  {
    && DrawnFrom(hand, firsts)
    && (forall d :: d in firsts ==> d.value <= top && |CardsOf(hand, d.value)| == n)
    && forall y :: Values(firsts)[y] == if y <= top && |CardsOf(hand, y)| == n then c else 0
  }

  lemma {:induction false} FirstsOfGroups(hand: seq<Card>, n: nat, top: int, c: nat)
    requires IsHand(hand) && 0 < c <= n
    ensures Firsts(hand, FirstsOf(Groups(hand, n, top), c), n, top, c)
    decreases top - LOWEST
  {
    hide IsHand, Values, CardsOf, Firsts, Groups, FirstsOf;
    if top < LOWEST {
      NoGroups(hand, n, top, c);
      NoFirsts(hand, n, top, c);
    } else {
      FirstsOfGroups(hand, n, top - 1, c);
      var before, group := Groups(hand, n, top - 1), CardsOf(hand, top);
      GroupsStep(hand, n, top);
      if |group| == n {
        FirstsStep(before, group, c);
        FirstsAppend(hand, FirstsOf(before, c), n, top, c);
      } else {
        FirstsSkip(hand, FirstsOf(before, c), n, top, c);
      }
    }
  }

  lemma NoGroups(hand: seq<Card>, n: nat, top: int, c: nat)
    requires top < LOWEST
    ensures FirstsOf(Groups(hand, n, top), c) == []
  {
  }

  lemma GroupsStep(hand: seq<Card>, n: nat, top: int)
    requires top >= LOWEST
    ensures |CardsOf(hand, top)| == n ==> Groups(hand, n, top) == Groups(hand, n, top - 1) + [CardsOf(hand, top)]
    ensures |CardsOf(hand, top)| != n ==> Groups(hand, n, top) == Groups(hand, n, top - 1)
  {
  }

  lemma FirstsStep(groups: seq<seq<Card>>, group: seq<Card>, c: nat)
    ensures FirstsOf(groups + [group], c) == FirstsOf(groups, c) + Take(group, c)
  {
    assert (groups + [group])[..|groups|] == groups;
  }

  lemma NoFirsts(hand: seq<Card>, n: nat, top: int, c: nat)
    requires IsHand(hand) && 0 < n && top < LOWEST
    ensures Firsts(hand, [], n, top, c)
  {
    hide IsHand, CardsOf;
    forall y | y <= top ensures |CardsOf(hand, y)| != n { if CardsOf(hand, y) != [] { GroupOf(hand, y); } }
  }

  lemma FirstsSkip(hand: seq<Card>, firsts: seq<Card>, n: nat, top: int, c: nat)
    requires Firsts(hand, firsts, n, top - 1, c) && |CardsOf(hand, top)| != n
    ensures Firsts(hand, firsts, n, top, c)
  {
    hide Values, CardsOf;
  }

  lemma FirstsAppend(hand: seq<Card>, firsts: seq<Card>, n: nat, top: int, c: nat)
    requires IsHand(hand) && 0 < c <= n && |CardsOf(hand, top)| == n
    requires Firsts(hand, firsts, n, top - 1, c)
    ensures Firsts(hand, firsts + CardsOf(hand, top)[..c], n, top, c)
  {
    var group := CardsOf(hand, top);
    var more := group[..c];
    FirstOfGroup(hand, top, c);
    ValuesAppend(firsts, more);
    hide Values, CardsOf, IsHand;
    forall d | d in firsts ensures d.value < top { }
  }

  lemma FirstOfGroup(hand: seq<Card>, top: int, c: nat)
    requires IsHand(hand) && c <= |CardsOf(hand, top)|
    ensures DrawnFrom(hand, CardsOf(hand, top)[..c])
    ensures forall i :: 0 <= i < c ==> CardsOf(hand, top)[..c][i].value == top
    ensures forall y :: Values(CardsOf(hand, top)[..c])[y] == if y == top then c else 0
  {
    var group := CardsOf(hand, top);
    CardsOfAscend(hand, top);
    forall i | 0 <= i < c ensures group[i].value == top && group[i] in hand { assert group[i] in group; }
    forall i, j | 0 <= i < j < c ensures group[i] != group[j] { assert Less(group[i], group[j]); }
    SameValues(group[..c], top);
  }

  /** `list` holds `c` cards of each value that occurs `lo` to `hi` times in the hand. */
  ghost predicate Picked(hand: seq<Card>, list: seq<Card>, lo: nat, hi: nat, c: nat)
  {
    && DrawnFrom(hand, list)
    && (forall d :: d in list ==> lo <= |CardsOf(hand, d.value)| <= hi)
    && forall y :: Values(list)[y] == if lo <= |CardsOf(hand, y)| <= hi then c else 0
  }

  lemma PickedNothing(hand: seq<Card>, lo: nat, c: nat)
    requires 0 < lo
    ensures Picked(hand, [], lo, lo - 1, c)
  {
  }

  lemma PickedNext(hand: seq<Card>, list: seq<Card>, lo: nat, hi: nat, c: nat, firsts: seq<Card>)
    requires IsHand(hand) && Picked(hand, list, lo, hi, c) && 0 < c <= hi + 1 && lo <= hi + 1
    requires firsts == FirstsOf(Groups(hand, hi + 1, BIG_JOKER), c)
    ensures Picked(hand, list + firsts, lo, hi + 1, c)
  {
    hide Values, CardsOf, IsHand, Groups, FirstsOf;
    FirstsOfGroups(hand, hi + 1, BIG_JOKER, c);
    ValuesAppend(list, firsts);
    forall y | |CardsOf(hand, y)| == hi + 1 ensures y <= BIG_JOKER { GroupOf(hand, y); }
  }

  lemma PickedSorted(hand: seq<Card>, list: seq<Card>, lo: nat, hi: nat, c: nat)
    requires Picked(hand, list, lo, hi, c)
    ensures Picked(hand, SortList(list), lo, hi, c)
  {
    hide Values, CardsOf, SortList;
    SortKeeps(list);
    DrawnDistinct(hand, list);
    var sorted := SortList(list);
    forall d | d in sorted ensures d in list { assert d in multiset(sorted); }
    forall i, j | 0 <= i < j < |sorted| ensures sorted[i] != sorted[j] { DistinctIndices(sorted, i, j); }
  }

  lemma {:induction false} DrawnDistinct(hand: seq<Card>, list: seq<Card>)
    requires DrawnFrom(hand, list)
    ensures Distinct(list)
  {
    if list != [] {
      var last := |list| - 1;
      assert list == list[..last] + [list[last]];
      DrawnDistinct(hand, list[..last]);
      assert list[last] !in list[..last];
    }
  }

  /** Adds the first cards of each group to the list, one group after another. */
  method PickFirsts(list: seq<Card>, groups: seq<seq<Card>>, c: nat) returns (more: seq<Card>)
    requires forall j :: 0 <= j < |groups| ==> c <= |groups[j]|
    ensures more == list + FirstsOf(groups, c)
  {
    more := list;
    var j := 0;
    while j < |groups|
      invariant 0 <= j <= |groups|
      invariant more == list + FirstsOf(groups[..j], c)
    {
      assert groups[..j + 1][..j] == groups[..j];
      more := more + groups[j][..c];
      j := j + 1;
    }
    assert groups[..j] == groups;
  }

  // --------------------------------------------------------- chains of singles and pairs

  ghost function ChainKind(c: nat): Kind
  {
    if c == 2 then DoubleChain else SingleChain
  }

  ghost predicate ChainLength(length: nat, c: nat)
  {
    if c == 2 then 6 <= length < 20 && length % 2 == 0 else c == 1 && 5 <= length < 20
  }

  lemma ChainFormed(hand: seq<Card>, list: seq<Card>, value: int, length: nat, c: nat, found: seq<Card>)
    requires DrawnFrom(hand, list) && SearchResult(list, value, length, c, found)
    requires found != [] && ChainLength(length, c)
    ensures Answers(hand, ChainKind(c), value, length, found)
  {
    var x := found[0].value;
    if c == 2 {
      PokerParser.PairsAreChain(ValueList(found), x, length / 2);
    } else {
      PokerParser.SinglesAreChain(ValueList(found), x);
    }
    AnswerFound(hand, ChainKind(c), value, length, found, x);
  }

  lemma NoChainFormed(hand: seq<Card>, list: seq<Card>, value: int, length: nat, c: nat)
    requires IsHand(hand) && Picked(hand, list, c, 4, c) && ChainLength(length, c)
    requires NoChainAbove(Values(list), value, Step(length, c), c)
    ensures NoAnswer(hand, ChainKind(c), value, length)
  {
    hide IsHand, DrawnFrom, CardsOf, Values;
    forall x, m: multiset<int> | x > value && m <= Values(hand)
      ensures !Matches(m, Hand(ChainKind(c), x, length))
    {
      if Matches(m, Hand(ChainKind(c), x, length)) {
        ChainPicked(hand, list, m, x, length, c);
      }
    }
  }

  /** A chain the hand can play is a chain of the picked cards. */
  lemma ChainPicked(hand: seq<Card>, list: seq<Card>, m: multiset<int>, x: int, length: nat, c: nat)
    requires IsHand(hand) && Picked(hand, list, c, 4, c) && ChainLength(length, c)
    requires m <= Values(hand) && Matches(m, Hand(ChainKind(c), x, length))
    ensures ChainIn(Values(list), x, Step(length, c), c)
  {
    hide IsHand, DrawnFrom, CardsOf, Values;
    forall y | x <= y < x + Step(length, c)
      ensures Values(list)[y] >= c
    {
      assert m[y] == c;
      assert m[y] <= Values(hand)[y];
      CardsOfCount(hand, y);
      CountBound(hand, y);
    }
  }

  method FindSingleChain(hand: seq<Card>, value: int, length: nat) returns (found: seq<Card>)
    requires IsHand(hand) && ChainLength(length, 1)
    ensures Answers(hand, SingleChain, value, length, found)
  {
    hide IsHand, Answers, NoAnswer, Picked, Groups, SearchResult, Distinct, NoChainAbove, FirstsOf, SortList, DrawnFrom;
    if |hand| < length {
      TooFewCards(hand, SingleChain, value, length);
      NoneFound(hand, SingleChain, value, length);
      return [];
    }
    var archived := new ArchivedPokers();
    ArchivePokerList(hand, archived);
    var pokersToFind: seq<Card> := [];
    PickedNothing(hand, 1, 1);
    var i := 0;
    while i < ARCHIVED_TYPE_NUM
      invariant 0 <= i <= ARCHIVED_TYPE_NUM
      invariant Archives(hand, archived.lists)
      invariant Picked(hand, pokersToFind, 1, i, 1)
      invariant i == ARCHIVED_TYPE_NUM ==> NoChainAbove(Values(pokersToFind), value, length, 1)
    {
      GroupsLarge(hand, i + 1, 1);
      ghost var picked := pokersToFind;
      pokersToFind := PickFirsts(pokersToFind, archived.lists[i], 1);
      PickedNext(hand, picked, 1, i, 1, FirstsOf(archived.lists[i], 1));
      if |pokersToFind| < length {
        ShortList(pokersToFind, value, length, 1);
      } else {
        PickedDistinct(hand, pokersToFind, 1, i + 1, 1);
        ghost var list := pokersToFind;
        pokersToFind, found := FindSingleChainInner(pokersToFind, value, length);
        PickedSorted(hand, list, 1, i + 1, 1);
        SearchSize(list, value, length, 1, found);
        if |found| == length {
          PickedDrawn(hand, list, 1, i + 1, 1);
          ChainFormed(hand, list, value, length, 1, found);
          return;
        }
        SortKeeps(list);
      }
      i := i + 1;
    }
    NoChainFormed(hand, pokersToFind, value, length, 1);
    NoneFound(hand, SingleChain, value, length);
    return [];
  }

  lemma PickedDistinct(hand: seq<Card>, list: seq<Card>, lo: nat, hi: nat, c: nat)
    requires Picked(hand, list, lo, hi, c)
    ensures Distinct(list)
  {
    DrawnDistinct(hand, list);
  }

  lemma PickedDrawn(hand: seq<Card>, list: seq<Card>, lo: nat, hi: nat, c: nat)
    requires Picked(hand, list, lo, hi, c)
    ensures DrawnFrom(hand, list)
  {
  }

  lemma SearchSize(list: seq<Card>, value: int, length: nat, c: nat, found: seq<Card>)
    requires SearchResult(list, value, length, c, found)
    ensures |found| == 0 || |found| == length
    ensures found == [] ==> NoChainAbove(Values(list), value, Step(length, c), c)
  {
  }

  method FindDoubleChain(hand: seq<Card>, value: int, length: nat) returns (found: seq<Card>)
    requires IsHand(hand) && ChainLength(length, 2)
    ensures Answers(hand, DoubleChain, value, length, found)
  {
    hide IsHand, Answers, NoAnswer, Picked, Groups, SearchResult, Distinct, NoChainAbove, FirstsOf, SortList, DrawnFrom;
    if |hand| < length {
      TooFewCards(hand, DoubleChain, value, length);
      NoneFound(hand, DoubleChain, value, length);
      return [];
    }
    var archived := new ArchivedPokers();
    ArchivePokerList(hand, archived);
    var pokersToFind: seq<Card> := [];
    PickedNothing(hand, 2, 2);
    var i := 1;
    while i < ARCHIVED_TYPE_NUM
      invariant 1 <= i <= ARCHIVED_TYPE_NUM
      invariant Archives(hand, archived.lists)
      invariant Picked(hand, pokersToFind, 2, i, 2)
      invariant i == ARCHIVED_TYPE_NUM ==> NoChainAbove(Values(pokersToFind), value, length / 2, 2)
    {
      GroupsLarge(hand, i + 1, 2);
      ghost var picked := pokersToFind;
      pokersToFind := PickFirsts(pokersToFind, archived.lists[i], 2);
      PickedNext(hand, picked, 2, i, 2, FirstsOf(archived.lists[i], 2));
      if |pokersToFind| < length {
        ShortList(pokersToFind, value, length / 2, 2);
      } else {
        PickedDistinct(hand, pokersToFind, 2, i + 1, 2);
        ghost var list := pokersToFind;
        pokersToFind, found := FindDoubleChainInner(pokersToFind, value, length);
        PickedSorted(hand, list, 2, i + 1, 2);
        SearchSize(list, value, length, 2, found);
        if |found| == length {
          PickedDrawn(hand, list, 2, i + 1, 2);
          ChainFormed(hand, list, value, length, 2, found);
          return;
        }
        SortKeeps(list);
      }
      i := i + 1;
    }
    NoChainFormed(hand, pokersToFind, value, length, 2);
    NoneFound(hand, DoubleChain, value, length);
    return [];
  }
}
