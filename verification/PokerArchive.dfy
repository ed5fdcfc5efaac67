// The archive of a hand: its cards sorted into singles, pairs, triples and
// fours, each list in ascending order.

module PokerArchive {
  import opened PokerInfo
  import opened Cards

  const ARCHIVED_TYPE_NUM := 4

  class ArchivedPokers {
    // lists[k] holds the values that occur exactly k + 1 times, each with its cards
    var lists: seq<seq<seq<Card>>>

    constructor ()
      ensures lists == [[], [], [], []]
    {
      lists := [[], [], [], []];
    }

    method Push(index: nat, cards: seq<Card>)
      requires |lists| == ARCHIVED_TYPE_NUM && index < ARCHIVED_TYPE_NUM
      modifies this
      ensures lists == old(lists)[index := old(lists)[index] + [cards]]
    {
      lists := lists[index := lists[index] + [cards]];
    }
  }

  /** The groups of exactly `n` cards of one value, for the values up to `top`, in ascending order. */
  ghost function Groups(hand: seq<Card>, n: nat, top: int): seq<seq<Card>>
    decreases top - LOWEST
  {
    if top < LOWEST then []
    else
      Groups(hand, n, top - 1) + if |CardsOf(hand, top)| == n then [CardsOf(hand, top)] else []
  }

  ghost predicate ArchivedUpTo(hand: seq<Card>, lists: seq<seq<seq<Card>>>, top: int)
  {
    |lists| == ARCHIVED_TYPE_NUM && forall k :: 0 <= k < ARCHIVED_TYPE_NUM ==> lists[k] == Groups(hand, k + 1, top)
  }

  ghost predicate Archives(hand: seq<Card>, lists: seq<seq<seq<Card>>>)
  {
    ArchivedUpTo(hand, lists, BIG_JOKER)
  }

  lemma {:induction false} GroupsBelow(hand: seq<Card>, n: nat, low: int, top: int)
    requires low <= top && 0 < n
    requires forall x :: low < x <= top ==> CardsOf(hand, x) == []
    ensures Groups(hand, n, top) == Groups(hand, n, low)
    decreases top - low
  {
    if low < top {
      GroupsBelow(hand, n, low, top - 1);
    }
  }

  lemma {:induction false} CardsOfAppend(a: seq<Card>, b: seq<Card>, x: int)
    ensures CardsOf(a + b, x) == CardsOf(a, x) + CardsOf(b, x)
  {
    if b == [] {
      assert a + b == a;
    } else {
      var last := |b| - 1;
      assert (a + b)[..|a + b| - 1] == a + b[..last];
      CardsOfAppend(a, b[..last], x);
    }
  }

  lemma {:induction false} CardsOfAll(cards: seq<Card>, x: int)
    requires forall i :: 0 <= i < |cards| ==> cards[i].value == x
    ensures CardsOf(cards, x) == cards
  {
    if cards != [] {
      CardsOfAll(cards[..|cards| - 1], x);
    }
  }

  lemma {:induction false} CardsOfNone(cards: seq<Card>, x: int)
    requires forall i :: 0 <= i < |cards| ==> cards[i].value != x
    ensures CardsOf(cards, x) == []
  {
    if cards != [] {
      CardsOfNone(cards[..|cards| - 1], x);
    }
  }

  /** `hand[p..e]` are cards of one value and the cards before are of lower values. */
  ghost predicate ValueRun(hand: seq<Card>, p: nat, e: nat)
  {
    && p < e <= |hand|
    && (forall i :: p <= i < e ==> hand[i].value == hand[p].value)
    && (forall i :: 0 <= i < p ==> hand[i].value < hand[p].value)
  }

  /** The cards of value `x` are the slice that holds all of them. */
  lemma SliceIsGroup(hand: seq<Card>, p: nat, e: nat, x: int)
    requires p <= e <= |hand|
    requires forall i :: 0 <= i < |hand| ==> (hand[i].value == x <==> p <= i < e)
    ensures CardsOf(hand, x) == hand[p..e]
  {
    assert hand == hand[..p] + hand[p..e] + hand[e..];
    CardsOfAppend(hand[..p] + hand[p..e], hand[e..], x);
    CardsOfAppend(hand[..p], hand[p..e], x);
    CardsOfAll(hand[p..e], x);
    CardsOfNone(hand[..p], x);
    CardsOfNone(hand[e..], x);
  }

  lemma SliceIsHand(hand: seq<Card>, p: nat, e: nat)
    requires IsHand(hand) && p <= e <= |hand|
    ensures IsHand(hand[p..e])
  {
  }

  lemma RunIsGroup(hand: seq<Card>, p: nat, e: nat)
    requires IsHand(hand) && ValueRun(hand, p, e) && (e < |hand| ==> hand[e].value != hand[p].value)
    ensures CardsOf(hand, hand[p].value) == hand[p..e]
    ensures |hand[p..e]| <= 4
  {
    RunEnds(hand, p, e);
    SliceIsHand(hand, p, e);
    hide IsHand;
    SliceIsGroup(hand, p, e, hand[p].value);
    OneValue(hand[p..e], hand[p].value);
  }

  /** Beyond a complete run the values are higher, from the next card's value on. */
  lemma RunEnds(hand: seq<Card>, p: nat, e: nat)
    requires IsHand(hand) && ValueRun(hand, p, e) && (e < |hand| ==> hand[e].value != hand[p].value)
    ensures e < |hand| ==> ValueRun(hand, e, e + 1)
    ensures forall i :: e <= i < |hand| ==> hand[i].value >= hand[e].value > hand[p].value
  {
    if e < |hand| {
      assert Less(hand[p], hand[e]);
      forall i | e <= i < |hand| ensures hand[i].value >= hand[e].value {
        assert i == e || Less(hand[e], hand[i]);
      }
    }
  }

  lemma BetweenRuns(hand: seq<Card>, p: nat, e: nat, y: int)
    requires IsHand(hand) && ValueRun(hand, p, e) && (e < |hand| ==> hand[e].value != hand[p].value)
    requires hand[p].value < y && (e < |hand| ==> y < hand[e].value)
    ensures CardsOf(hand, y) == []
  {
    RunEnds(hand, p, e);
    CardsOfNone(hand, y);
  }

  ghost function NextTop(hand: seq<Card>, e: nat): int
  {
    if e < |hand| then hand[e].value - 1 else BIG_JOKER
  }

  lemma GroupsAfterRun(hand: seq<Card>, p: nat, e: nat, n: nat)
    requires IsHand(hand) && ValueRun(hand, p, e) && (e < |hand| ==> hand[e].value != hand[p].value) && 0 < n
    ensures Groups(hand, n, NextTop(hand, e))
      == Groups(hand, n, hand[p].value - 1) + if e - p == n then [hand[p..e]] else []
  {
    RunIsGroup(hand, p, e);
    RunEnds(hand, p, e);
    assert IsCard(hand[p]);
    forall y | hand[p].value < y <= NextTop(hand, e)
      ensures CardsOf(hand, y) == []
    {
      BetweenRuns(hand, p, e, y);
    }
    GroupsBelow(hand, n, hand[p].value, NextTop(hand, e));
  }

  /** Filing a complete run brings the archive from the values below it to the values below the next. */
  lemma RunFiled(hand: seq<Card>, p: nat, e: nat, lists: seq<seq<seq<Card>>>)
    requires IsHand(hand) && ValueRun(hand, p, e) && (e < |hand| ==> hand[e].value != hand[p].value)
    requires ArchivedUpTo(hand, lists, hand[p].value - 1)
    ensures e - p <= 4
    ensures ArchivedUpTo(hand, lists[e - p - 1 := lists[e - p - 1] + [hand[p..e]]], NextTop(hand, e))
  {
    hide IsHand, Groups, CardsOf;
    RunIsGroup(hand, p, e);
    GroupsAfterRun(hand, p, e, 1);
    GroupsAfterRun(hand, p, e, 2);
    GroupsAfterRun(hand, p, e, 3);
    GroupsAfterRun(hand, p, e, 4);
  }

  lemma NothingBelow(hand: seq<Card>, x: int)
    requires IsHand(hand) && hand != [] && x < hand[0].value
    ensures CardsOf(hand, x) == []
  {
    forall i | 0 <= i < |hand|
      ensures hand[i].value != x
    {
      assert i == 0 || Less(hand[0], hand[i]);
    }
    CardsOfNone(hand, x);
  }

  lemma NoGroupsBelow(hand: seq<Card>, n: nat)
    requires IsHand(hand) && hand != [] && 0 < n
    ensures Groups(hand, n, hand[0].value - 1) == []
  {
    hide CardsOf;
    assert IsCard(hand[0]);
    forall x | x < hand[0].value { NothingBelow(hand, x); }
    hide IsHand;
    GroupsBelow(hand, n, LOWEST - 1, hand[0].value - 1);
  }

  lemma NothingFiled(hand: seq<Card>)
    requires IsHand(hand) && hand != []
    ensures ArchivedUpTo(hand, [[], [], [], []], hand[0].value - 1)
  {
    hide IsHand, Groups;
    NoGroupsBelow(hand, 1);
    NoGroupsBelow(hand, 2);
    NoGroupsBelow(hand, 3);
    NoGroupsBelow(hand, 4);
  }

  /** Walks the hand once and files every run of equal values under its length. */
  method ArchivePokerList(hand: seq<Card>, archived: ArchivedPokers)
    requires IsHand(hand) && hand != []
    requires archived.lists == [[], [], [], []]
    modifies archived
    ensures Archives(hand, archived.lists)
  {
    hide IsHand, ArchivedUpTo;
    var pokerValue := hand[0];
    var currTypeNum := 0;
    var typePokers := [pokerValue];
    NothingFiled(hand);
    if |hand| == 1 {
      RunFiled(hand, 0, 1, archived.lists);
      assert hand[0..1] == typePokers;
      archived.Push(0, typePokers);
      return;
    }
    ghost var p := 0;
    var curr := 1;
    while curr < |hand|
      invariant 1 <= curr <= |hand|
      invariant curr < |hand| ==> ValueRun(hand, p, curr) && pokerValue.value == hand[p].value
      invariant curr < |hand| ==> typePokers == hand[p..curr] && currTypeNum == curr - p - 1
      invariant |archived.lists| == ARCHIVED_TYPE_NUM
      invariant ArchivedUpTo(hand, archived.lists, if curr < |hand| then hand[p].value - 1 else BIG_JOKER)
    {
      var currValue := hand[curr];
      if currValue.value == pokerValue.value {
        currTypeNum := currTypeNum + 1;
        typePokers := typePokers + [currValue];
      } else {
        RunFiled(hand, p, curr, archived.lists);
        RunEnds(hand, p, curr);
        assert typePokers == hand[p..curr];
        archived.Push(currTypeNum, typePokers);
        p := curr;
        pokerValue := currValue;
        currTypeNum := 0;
        typePokers := [currValue];
      }
      if curr == |hand| - 1 {
        assert typePokers == hand[p..|hand|];
        RunFiled(hand, p, |hand|, archived.lists);
        archived.Push(currTypeNum, typePokers);
      }
      curr := curr + 1;
    }
  }

  /** The value of a group. */
  ghost function GroupValue(g: seq<Card>): int
  {
    if g == [] then 0 else g[0].value
  }

  lemma GroupOf(hand: seq<Card>, x: int)
    requires IsHand(hand) && CardsOf(hand, x) != []
    ensures GroupValue(CardsOf(hand, x)) == x && LOWEST <= x <= BIG_JOKER
  {
    CardsOfAscend(hand, x);
    assert CardsOf(hand, x)[0] in CardsOf(hand, x);
  }

  lemma {:induction false} GroupAt(hand: seq<Card>, n: nat, top: int, j: nat)
    requires IsHand(hand) && j < |Groups(hand, n, top)| && 0 < n
    ensures var g := Groups(hand, n, top)[j];
            |g| == n && LOWEST <= GroupValue(g) <= top && g == CardsOf(hand, GroupValue(g))
    decreases top - LOWEST
  {
    if j < |Groups(hand, n, top - 1)| {
      GroupAt(hand, n, top - 1, j);
    } else {
      GroupOf(hand, top);
    }
  }

  lemma {:induction false} GroupsAscend(hand: seq<Card>, n: nat, top: int, i: nat, j: nat)
    requires IsHand(hand) && i < j < |Groups(hand, n, top)| && 0 < n
    ensures GroupValue(Groups(hand, n, top)[i]) < GroupValue(Groups(hand, n, top)[j])
    decreases top - LOWEST
  {
    if j < |Groups(hand, n, top - 1)| {
      GroupsAscend(hand, n, top - 1, i, j);
    } else {
      GroupAt(hand, n, top - 1, i);
      GroupOf(hand, top);
    }
  }

  lemma {:induction false} GroupFound(hand: seq<Card>, n: nat, top: int, x: int) returns (j: nat)
    requires |CardsOf(hand, x)| == n && 0 < n && LOWEST <= x <= top
    ensures j < |Groups(hand, n, top)| && Groups(hand, n, top)[j] == CardsOf(hand, x)
    decreases top - LOWEST
  {
    if x == top {
      j := |Groups(hand, n, top - 1)|;
    } else {
      j := GroupFound(hand, n, top - 1, x);
    }
  }

  /** `x` is the lowest value above `value` that occurs exactly `n` times. */
  ghost predicate FirstAbove(hand: seq<Card>, n: nat, value: int, x: int)
  {
    && x > value && |CardsOf(hand, x)| == n
    && forall y :: y > value && |CardsOf(hand, y)| == n ==> x <= y
  }

  ghost predicate NoneAbove(hand: seq<Card>, n: nat, value: int)
  {
    forall y :: y > value ==> |CardsOf(hand, y)| != n
  }

  lemma FirstGroup(hand: seq<Card>, n: nat, value: int, i: nat)
    requires IsHand(hand) && 0 < n && i <= |Groups(hand, n, BIG_JOKER)|
    requires forall j :: 0 <= j < i ==> GroupValue(Groups(hand, n, BIG_JOKER)[j]) <= value
    requires i < |Groups(hand, n, BIG_JOKER)| ==> GroupValue(Groups(hand, n, BIG_JOKER)[i]) > value
    ensures i < |Groups(hand, n, BIG_JOKER)| ==> FirstAbove(hand, n, value, GroupValue(Groups(hand, n, BIG_JOKER)[i]))
    ensures i == |Groups(hand, n, BIG_JOKER)| ==> NoneAbove(hand, n, value)
  {
    if i < |Groups(hand, n, BIG_JOKER)| {
      GroupAt(hand, n, BIG_JOKER, i);
    }
    forall y | y > value && |CardsOf(hand, y)| == n
      ensures i < |Groups(hand, n, BIG_JOKER)| && GroupValue(Groups(hand, n, BIG_JOKER)[i]) <= y
    {
      GroupOf(hand, y);
      var j := GroupFound(hand, n, BIG_JOKER, y);
      if i < j { GroupsAscend(hand, n, BIG_JOKER, i, j); }
    }
  }

  /** The lowest group of `typeNum` cards above `value`; no cards if there is none. */
  method FindTypeValue(archived: ArchivedPokers, typeNum: int, value: int, ghost hand: seq<Card>)
    returns (found: seq<Card>)
    requires IsHand(hand) && Archives(hand, archived.lists)
    ensures var n := if typeNum < 1 then 1 else if typeNum > 4 then 4 else typeNum;
            if found == [] then NoneAbove(hand, n, value)
            else |found| == n && FirstAbove(hand, n, value, found[0].value) && found == CardsOf(hand, found[0].value)
  {
    var index := typeNum - 1;
    if index < 0 {
      index := 0;
    }
    if index > 3 {
      index := 3;
    }
    var typeArray: seq<seq<Card>> := archived.lists[index];
    var i := 0;
    while i < |typeArray|
      invariant 0 <= i <= |typeArray|
      invariant forall j :: 0 <= j < i ==> GroupValue(typeArray[j]) <= value
    {
      GroupAt(hand, index + 1, BIG_JOKER, i);
      if typeArray[i][0].value > value {
        FirstGroup(hand, index + 1, value, i);
        return typeArray[i];
      }
      i := i + 1;
    }
    FirstGroup(hand, index + 1, value, i);
    return [];
  }
}
