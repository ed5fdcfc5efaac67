// The greedy search of a list of cards for a chain of singles or of pairs.

module ChainSearch {
  import opened PokerInfo
  import opened Patterns
  import opened Cards

  // ------------------------------------------------------------- sorting a list

  function Insert(c: Card, cards: seq<Card>): seq<Card>
  {
    if cards == [] || Less(c, cards[0]) then [c] + cards
    else [cards[0]] + Insert(c, cards[1..])
  }

  /** The library sort by the order of the cards. */
  function SortList(cards: seq<Card>): seq<Card>
  {
    if cards == [] then [] else Insert(cards[0], SortList(cards[1..]))
  }

  ghost predicate Rising(cards: seq<Card>)
  {
    forall i, j :: 0 <= i < j < |cards| ==> cards[i].value <= cards[j].value
  }

  /** No card occurs twice. */
  ghost predicate Distinct(cards: seq<Card>)
  {
    forall c :: multiset(cards)[c] <= 1
  }

  lemma {:induction false} InsertKeeps(c: Card, cards: seq<Card>)
    ensures multiset(Insert(c, cards)) == multiset(cards) + multiset{c}
    ensures Values(Insert(c, cards)) == Values(cards) + multiset{c.value}
  {
    ValuesOne(c);
    if cards == [] || Less(c, cards[0]) {
      ValuesAppend([c], cards);
    } else {
      var first, rest := [cards[0]], cards[1..];
      InsertKeeps(c, rest);
      assert cards == first + rest;
      ValuesAppend(first, rest);
      ValuesAppend(first, Insert(c, rest));
    }
  }

  lemma {:induction false} InsertRises(c: Card, cards: seq<Card>)
    requires Rising(cards)
    ensures Rising(Insert(c, cards))
    ensures forall d :: d in Insert(c, cards) ==> d == c || d in cards
  {
    if cards != [] && !Less(c, cards[0]) {
      InsertRises(c, cards[1..]);
      PrependRises(cards[0], Insert(c, cards[1..]));
    }
  }

  lemma PrependRises(c: Card, cards: seq<Card>)
    requires Rising(cards) && forall d :: d in cards ==> c.value <= d.value
    ensures Rising([c] + cards)
  {
  }

  lemma {:induction false} SortKeeps(cards: seq<Card>)
    ensures Rising(SortList(cards))
    ensures multiset(SortList(cards)) == multiset(cards)
    ensures Values(SortList(cards)) == Values(cards)
    ensures |SortList(cards)| == |cards|
  {
    if cards != [] {
      assert cards == [cards[0]] + cards[1..];
      SortKeeps(cards[1..]);
      InsertKeeps(cards[0], SortList(cards[1..]));
      InsertRises(cards[0], SortList(cards[1..]));
      ValuesAppend([cards[0]], cards[1..]);
      ValuesOne(cards[0]);
    }
    assert |multiset(SortList(cards))| == |multiset(cards)|;
  }

  lemma DistinctIndices(cards: seq<Card>, i: nat, j: nat)
    requires Distinct(cards) && i < j < |cards|
    ensures cards[i] != cards[j]
  {
    assert cards == cards[..i] + [cards[i]] + cards[i + 1..j] + [cards[j]] + cards[j + 1..];
    assert multiset(cards)[cards[i]] <= 1;
  }

  // ------------------------------------------------------------ chains in a list

  /** The number of values that `t` cards of a chain with `c` cards each run through. */
  function Step(t: nat, c: nat): nat
  {
    if c == 2 then t / 2 else t
  }

  /** From `x` on, `k` values below the two occur at least `c` times each. */
  ghost predicate ChainIn(m: multiset<int>, x: int, k: nat, c: nat)
  {
    x + k <= TWO && forall y :: x <= y < x + k ==> m[y] >= c
  }

  ghost predicate NoChainAbove(m: multiset<int>, value: int, k: nat, c: nat)
  {
    forall x :: x > value ==> !ChainIn(m, x, k, c)
  }

  /** Cards of the list in the order of a chain with `c` cards of each value. */
  ghost predicate ChainCards(found: seq<Card>, x: int, c: nat)
  {
    forall t :: 0 <= t < |found| ==> found[t].value == x + Step(t, c)
  }

  lemma {:induction false} ChainSize(m: multiset<int>, x: int, k: nat, c: nat)
    requires c == 1 || c == 2
    requires forall y :: x <= y < x + k ==> m[y] >= c
    ensures |m| >= if c == 2 then 2 * k else k
  {
    if k > 0 {
      var y := x + k - 1;
      ChainSize(m[y := m[y] - c], x, k - 1, c);
    }
  }

  lemma {:induction false} CountsZero(cards: seq<Card>, x: int)
    requires forall i :: 0 <= i < |cards| ==> cards[i].value != x
    ensures Values(cards)[x] == 0
  {
    assert x !in ValueList(cards);
  }

  /** A chain has room behind the first card of its first value. */
  lemma ChainRoom(list: seq<Card>, i: nat, x: int, k: nat, c: nat)
    requires c == 1 || c == 2
    requires i <= |list| && forall j :: 0 <= j < i ==> list[j].value < x
    requires ChainIn(Values(list), x, k, c)
    ensures |list| - i >= if c == 2 then 2 * k else k
  {
    assert list == list[..i] + list[i..];
    ValuesAppend(list[..i], list[i..]);
    forall y | x <= y < x + k
      ensures Values(list[i..])[y] >= c
    {
      CountsZero(list[..i], y);
      assert Values(list)[y] >= c;
    }
    ChainSize(Values(list[i..]), x, k, c);
  }

  // ------------------------------------------------------- the search for one start

  /** The walk from `i` to `j` has collected the cards of a chain that starts with `list[i]`. */
  ghost predicate Walk(list: seq<Card>, i: nat, j: nat, found: seq<Card>, c: nat)
  {
    && i <= j <= |list| && (c == 1 || c == 2)
    && (found == [] <==> i == j)
    && (i < j ==> ChainCards(found, list[i].value, c))
    && (i < j ==> found[|found| - 1].value == list[j - 1].value)
    && (forall q :: i <= q < j ==> list[q].value < TWO)
    && multiset(found) <= multiset(list[i..j])
    && (c == 2 && |found| % 2 == 1 ==> j - i == 1 || list[j - 2].value < list[j - 1].value)
  }

  /** The value the walk waits for, `c` cards of it in all. */
  ghost function Awaited(list: seq<Card>, i: nat, found: seq<Card>, c: nat): int
    requires i < |list|
  {
    list[i].value + Step(|found|, c)
  }

  /** The last value collected is the awaited one or the one before it. */
  lemma StepBack(t: nat, c: nat)
    requires 0 < t && (c == 1 || c == 2)
    ensures Step(t, c) == Step(t - 1, c) + if c == 2 && t % 2 == 1 then 0 else 1
  {
  }

  lemma ChainGrows(found: seq<Card>, x: int, c: nat, d: Card)
    requires (found == [] || ChainCards(found, x, c)) && d.value == x + Step(|found|, c)
    ensures ChainCards(found + [d], x, c)
    ensures found != [] ==> found[|found| - 1].value == x + Step(|found| - 1, c)
  {
  }

  lemma WalkTakes(list: seq<Card>, i: nat, j: nat, found: seq<Card>, c: nat)
    requires Rising(list) && Walk(list, i, j, found, c) && j < |list| && list[j].value < TWO
    requires list[j].value == Awaited(list, i, found, c)
    ensures Walk(list, i, j + 1, found + [list[j]], c)
  {
    hide Rising, ChainCards, Step;
    if i < j { StepBack(|found|, c); }
    ChainGrows(found, list[i].value, c, list[j]);
    assert list[i..j + 1] == list[i..j] + [list[j]];
  }

  lemma WalkSkips(list: seq<Card>, i: nat, j: nat, found: seq<Card>, c: nat)
    requires Rising(list) && Walk(list, i, j, found, c) && i < j < |list|
    requires list[j].value == list[j - 1].value && Step(|found|, c) > Step(|found| - 1, c)
    ensures Walk(list, i, j + 1, found, c)
  {
    assert list[i..j + 1] == list[i..j] + [list[j]];
  }

  /** When the walk stops short, there is no chain from its first value on. */
  lemma WalkStuck(list: seq<Card>, i: nat, j: nat, found: seq<Card>, k: nat, c: nat)
    requires Rising(list) && Walk(list, i, j, found, c) && i < |list|
    requires forall q :: 0 <= q < i ==> list[q].value < list[i].value
    requires Step(|found|, c) < k
    requires j <= |list|
    requires j < |list| ==> list[j].value > Awaited(list, i, found, c) || list[j].value >= TWO
    ensures !ChainIn(Values(list), list[i].value, k, c)
  {
    var w := Awaited(list, i, found, c);
    if w < TWO {
      hide Rising, Walk, Values;
      ListSplit(list, i, j, found, c);
      ValuesAppend(list[..j], list[j..]);
      NoneFrom(list, j, w);
      WalkHas(list, i, j, found, c);
      assert Values(list)[w] < c;
    }
  }

  lemma ListSplit(list: seq<Card>, i: nat, j: nat, found: seq<Card>, c: nat)
    requires Walk(list, i, j, found, c)
    ensures j <= |list| && list == list[..j] + list[j..]
  {
  }

  lemma NoneFrom(list: seq<Card>, j: nat, w: int)
    requires Rising(list) && j <= |list| && (j < |list| ==> list[j].value > w)
    ensures Values(list[j..])[w] == 0
  {
    CountsZero(list[j..], w);
  }

  /** Of the awaited value the walk has passed fewer than `c` cards. */
  lemma WalkHas(list: seq<Card>, i: nat, j: nat, found: seq<Card>, c: nat)
    requires Rising(list) && Walk(list, i, j, found, c) && i < |list|
    requires forall q :: 0 <= q < i ==> list[q].value < list[i].value
    ensures Values(list[..j])[Awaited(list, i, found, c)] < c
  {
    hide Values;
    var w := Awaited(list, i, found, c);
    if i < j { StepBack(|found|, c); }
    if c == 2 && |found| % 2 == 1 {
      assert list[..j] == list[..j - 1] + [list[j - 1]];
      ValuesAppend(list[..j - 1], [list[j - 1]]);
      ValuesOne(list[j - 1]);
      CountsZero(list[..j - 1], w);
    } else {
      if i < j { assert w == list[j - 1].value + 1; }
      CountsZero(list[..j], w);
    }
  }

  // ------------------------------------------------------------ the two searches

  lemma WalkStarts(list: seq<Card>, i: nat, c: nat)
    requires i <= |list| && (c == 1 || c == 2)
    ensures Walk(list, i, i, [], c)
  {
  }

  lemma WalkLast(list: seq<Card>, i: nat, j: nat, found: seq<Card>, c: nat)
    requires Rising(list) && Walk(list, i, j, found, c) && i < j < |list|
    ensures found != [] && found[|found| - 1].value == list[j - 1].value <= list[j].value
    ensures Awaited(list, i, found, c) ==
      if c == 2 && |found| % 2 == 1 then list[j - 1].value else list[j - 1].value + 1
  {
  }

  /** A completed walk is a chain drawn from the list. */
  lemma WalkDone(list: seq<Card>, i: nat, j: nat, found: seq<Card>, k: nat, c: nat)
    requires Distinct(list) && Walk(list, i, j, found, c) && 0 < k
    requires |found| == if c == 2 then 2 * k else k
    ensures i < j && ChainCards(found, list[i].value, c) && list[i].value + k <= TWO
    ensures DrawnFrom(list, found)
  {
    assert list == list[..i] + list[i..j] + list[j..];
    assert Step(|found| - 1, c) == k - 1;
    forall t | 0 <= t < |found|
      ensures found[t] in list
    {
      assert found[t] in multiset(found);
      assert found[t] in multiset(list[i..j]);
    }
    forall d ensures multiset(found)[d] <= 1 {
      assert multiset(found)[d] <= multiset(list[i..j])[d] <= multiset(list)[d];
    }
    forall t, u | 0 <= t < u < |found|
      ensures found[t] != found[u]
    {
      DistinctIndices(found, t, u);
    }
  }

  /** No chain above `value` starts with one of the first `i` cards. */
  ghost predicate Searched(list: seq<Card>, value: int, i: nat, k: nat, c: nat)
  {
    forall j :: 0 <= j < i && j < |list| && list[j].value > value ==> !ChainIn(Values(list), list[j].value, k, c)
  }

  lemma SearchedNext(list: seq<Card>, value: int, i: nat, k: nat, c: nat)
    requires Rising(list) && Searched(list, value, i, k, c) && i < |list|
    requires list[i].value > value && (forall q :: 0 <= q < i ==> list[q].value < list[i].value)
             ==> !ChainIn(Values(list), list[i].value, k, c)
    ensures Searched(list, value, i + 1, k, c)
  {
    if exists q :: 0 <= q < i && list[q].value >= list[i].value {
      var q :| 0 <= q < i && list[q].value >= list[i].value;
      assert list[q].value == list[i].value;
    }
  }

  lemma SearchedAll(list: seq<Card>, value: int, i: nat, k: nat, c: nat)
    requires Rising(list) && Searched(list, value, i, k, c) && i <= |list| && 0 < k && (c == 1 || c == 2)
    requires |list| - i < if c == 2 then 2 * k else k
    ensures NoChainAbove(Values(list), value, k, c)
  {
    forall x | x > value
      ensures !ChainIn(Values(list), x, k, c)
    {
      if ChainIn(Values(list), x, k, c) {
        assert Values(list)[x] >= c;
        assert x in ValueList(list);
        var f :| 0 <= f < |list| && ValueList(list)[f] == x;
        forall j | 0 <= j < i ensures list[j].value < x { }
        ChainRoom(list, i, x, k, c);
      }
    }
  }

  lemma NoHighCard(list: seq<Card>, value: int, k: nat, c: nat)
    requires Rising(list) && list != [] && list[|list| - 1].value <= value && 0 < k && 0 < c
    ensures NoChainAbove(Values(list), value, k, c)
  {
    forall x | x > value
      ensures !ChainIn(Values(list), x, k, c)
    {
      CountsZero(list, x);
      assert Values(list)[x] < c;
    }
  }

  /**
   * What a search returns: a chain of `length` cards above `value` drawn from the list, or no cards if
   * there is none.
   */
  ghost predicate SearchResult(list: seq<Card>, value: int, length: nat, c: nat, found: seq<Card>)
  {
    var k := Step(length, c);
    if found == [] then NoChainAbove(Values(list), value, k, c)
    else
      && |found| == length && found[0].value > value && found[0].value + k <= TWO
      && ChainCards(found, found[0].value, c) && DrawnFrom(list, found)
  }

  lemma ResultOfSorted(list: seq<Card>, value: int, length: nat, c: nat, found: seq<Card>)
    requires SearchResult(SortList(list), value, length, c, found)
    ensures SearchResult(list, value, length, c, found)
  {
    SortKeeps(list);
    forall i | 0 <= i < |found|
      ensures found[i] in SortList(list) ==> found[i] in list
    {
      if found[i] in SortList(list) { assert found[i] in multiset(SortList(list)); }
    }
  }

  lemma ShortList(list: seq<Card>, value: int, k: nat, c: nat)
    requires 0 < k && (c == 1 || c == 2) && |list| < if c == 2 then 2 * k else k
    ensures NoChainAbove(Values(list), value, k, c)
  {
    forall x | x > value
      ensures !ChainIn(Values(list), x, k, c)
    {
      if ChainIn(Values(list), x, k, c) { ChainRoom(list, 0, x, k, c); }
    }
  }

  /** The walk from the `i`-th card of a sorted list, up to `length` cards of different values. */
  method SingleWalk(list: seq<Card>, i: nat, length: nat) returns (found: seq<Card>, ghost j: nat)
    requires Rising(list) && i < |list| && 0 < length
    ensures i <= j <= |list| && Walk(list, i, j, found, 1) && |found| <= length
    ensures |found| < length ==> (forall q :: 0 <= q < i ==> list[q].value < list[i].value)
                                 ==> !ChainIn(Values(list), list[i].value, length, 1)
  {
    hide Walk, Rising, ChainIn;
    found := [];
    var next := i;
    WalkStarts(list, i, 1);
    while next < |list| && |found| < length
      invariant i <= next <= |list| && |found| <= length
      invariant Walk(list, i, next, found, 1) && (found == [] <==> i == next)
    {
      if list[next].value >= TWO {
        break;
      }
      if |found| == 0 {
        WalkTakes(list, i, next, found, 1);
        found := found + [list[next]];
      } else {
        WalkLast(list, i, next, found, 1);
        var r := list[next].value - found[|found| - 1].value;
        if r == 0 {
          WalkSkips(list, i, next, found, 1);
        } else if r == 1 {
          WalkTakes(list, i, next, found, 1);
          found := found + [list[next]];
        } else {
          break;
        }
      }
      next := next + 1;
    }
    j := next;
    if |found| < length && forall q :: 0 <= q < i ==> list[q].value < list[i].value {
      WalkStuck(list, i, j, found, length, 1);
    }
  }

  /** The walk from the `i`-th card of a sorted list, up to `length` cards in pairs. */
  method DoubleWalk(list: seq<Card>, i: nat, length: nat) returns (found: seq<Card>, ghost j: nat)
    requires Rising(list) && i < |list| && 0 < length && length % 2 == 0
    ensures i <= j <= |list| && Walk(list, i, j, found, 2) && |found| <= length
    ensures |found| < length ==> (forall q :: 0 <= q < i ==> list[q].value < list[i].value)
                                 ==> !ChainIn(Values(list), list[i].value, length / 2, 2)
  {
    hide Walk, Rising, ChainIn;
    found := [];
    var next := i;
    WalkStarts(list, i, 2);
    while next < |list| && |found| < length
      invariant i <= next <= |list| && |found| <= length
      invariant Walk(list, i, next, found, 2) && (found == [] <==> i == next)
    {
      if list[next].value >= TWO {
        break;
      }
      if |found| == 0 {
        WalkTakes(list, i, next, found, 2);
        found := found + [list[next]];
      } else {
        WalkLast(list, i, next, found, 2);
        var r := list[next].value - found[|found| - 1].value;
        if |found| % 2 == 0 {
          if r == 0 {
            WalkSkips(list, i, next, found, 2);
          } else if r == 1 {
            WalkTakes(list, i, next, found, 2);
            found := found + [list[next]];
          } else {
            break;
          }
        } else {
          if r == 0 {
            WalkTakes(list, i, next, found, 2);
            found := found + [list[next]];
          } else {
            break;
          }
        }
      }
      next := next + 1;
    }
    j := next;
    if |found| < length && forall q :: 0 <= q < i ==> list[q].value < list[i].value {
      WalkStuck(list, i, j, found, length / 2, 2);
    }
  }

  /** Sorts the list and tries each card above `value` as the first of `length` cards of successive values. */
  method FindSingleChainInner(list: seq<Card>, value: int, length: nat)
    returns (sorted: seq<Card>, found: seq<Card>)
    requires Distinct(list) && 0 < length
    ensures sorted == list || sorted == SortList(list)
    ensures SearchResult(list, value, length, 1, found)
  {
    hide Walk, Rising, ChainIn, Distinct, Searched;
    sorted := list;
    if |list| < length {
      ShortList(list, value, length, 1);
      return sorted, [];
    }
    sorted := SortList(list);
    SortKeeps(list);
    SortedDistinct(list);
    if sorted[|sorted| - 1].value <= value {
      NoHighCard(sorted, value, length, 1);
      ResultOfSorted(list, value, length, 1, []);
      return sorted, [];
    }
    NothingSearched(sorted, value, length, 1);
    var i := 0;
    while i < |sorted| && |sorted| - i >= length
      invariant 0 <= i <= |sorted|
      invariant Searched(sorted, value, i, length, 1)
    {
      if sorted[i].value > value {
        ghost var j;
        found, j := SingleWalk(sorted, i, length);
        if |found| == length {
          WalkDone(sorted, i, j, found, length, 1);
          ResultOfSorted(list, value, length, 1, found);
          return;
        }
      }
      SearchedNext(sorted, value, i, length, 1);
      i := i + 1;
    }
    SearchedAll(sorted, value, i, length, 1);
    ResultOfSorted(list, value, length, 1, []);
    return sorted, [];
  }

  /** The same for `length` cards in pairs. */
  method FindDoubleChainInner(list: seq<Card>, value: int, length: nat)
    returns (sorted: seq<Card>, found: seq<Card>)
    requires Distinct(list) && 0 < length && length % 2 == 0
    ensures sorted == list || sorted == SortList(list)
    ensures SearchResult(list, value, length, 2, found)
  {
    hide Walk, Rising, ChainIn, Distinct, Searched;
    sorted := list;
    if |list| < length {
      ShortList(list, value, length / 2, 2);
      return sorted, [];
    }
    sorted := SortList(list);
    SortKeeps(list);
    SortedDistinct(list);
    if sorted[|sorted| - 1].value <= value {
      NoHighCard(sorted, value, length / 2, 2);
      ResultOfSorted(list, value, length, 2, []);
      return sorted, [];
    }
    NothingSearched(sorted, value, length / 2, 2);
    var i := 0;
    while i < |sorted| && |sorted| - i >= length
      invariant 0 <= i <= |sorted|
      invariant Searched(sorted, value, i, length / 2, 2)
    {
      if sorted[i].value > value {
        ghost var j;
        found, j := DoubleWalk(sorted, i, length);
        if |found| == length {
          WalkDone(sorted, i, j, found, length / 2, 2);
          ResultOfSorted(list, value, length, 2, found);
          return;
        }
      }
      SearchedNext(sorted, value, i, length / 2, 2);
      i := i + 1;
    }
    SearchedAll(sorted, value, i, length / 2, 2);
    ResultOfSorted(list, value, length, 2, []);
    return sorted, [];
  }

  lemma SortedDistinct(list: seq<Card>)
    requires Distinct(list)
    ensures Distinct(SortList(list))
  {
    SortKeeps(list);
  }

  lemma NothingSearched(list: seq<Card>, value: int, k: nat, c: nat)
    ensures Searched(list, value, 0, k, c)
  {
  }
}
