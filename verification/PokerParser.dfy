// The hand classifier: sorting, the run-counting loops and `Parse`.

module PokerParser {
  import opened PokerInfo
  import opened Patterns

  ghost predicate Sorted(s: seq<int>)
  {
    forall i, j :: 0 <= i < j < |s| ==> s[i] <= s[j]
  }

  /** No code is zero, as in any string of the source; a code may be negative there. */
  ghost predicate NoZero(s: seq<int>)
  {
    0 !in s
  }

  // ---------------------------------------------------------------- sorting

  ghost function Swapped(s: seq<int>, j: nat): seq<int>
    requires j + 1 < |s|
  {
    s[j := s[j + 1]][j + 1 := s[j]]
  }

  lemma SwapKeeps(s: seq<int>, j: nat)
    requires j + 1 < |s|
    ensures multiset(Swapped(s, j)) == multiset(s)
  {
    assert s == s[..j] + [s[j], s[j + 1]] + s[j + 2..];
    assert Swapped(s, j) == s[..j] + [s[j + 1], s[j]] + s[j + 2..];
  }

  /** From position `k` on, every element is at least all the elements before it. */
  ghost predicate SortedFrom(s: seq<int>, k: int)
  {
    forall a, b :: 0 <= a < b < |s| && k <= b ==> s[a] <= s[b]
  }

  /** No element before position `j` exceeds the one at `j`. */
  ghost predicate MaximumAt(s: seq<int>, j: nat)
    requires j < |s|
  {
    forall a :: 0 <= a < j ==> s[a] <= s[j]
  }

  lemma SwapSorts(s: seq<int>, k: int, j: nat)
    requires j + 1 < k <= |s|
    requires SortedFrom(s, k) && MaximumAt(s, j)
    ensures SortedFrom(Swapped(s, j), k)
    ensures s[j] >= s[j + 1] ==> MaximumAt(Swapped(s, j), j + 1)
  {
    var t := Swapped(s, j);
    forall a, b | 0 <= a < b < |t| && k <= b
      ensures t[a] <= t[b]
    {
      var a' := if a == j then j + 1 else if a == j + 1 then j else a;
      assert s[a'] <= s[b];
    }
  }

  method Swap(cards: array<int>, size: nat, j: nat)
    requires j + 1 < size <= cards.Length
    modifies cards
    ensures cards[..size] == Swapped(old(cards[..size]), j)
    ensures cards[size..] == old(cards[size..])
  {
    var temp := cards[j];
    cards[j] := cards[j + 1];
    cards[j + 1] := temp;
  }

  /** Going on without a swap, and ending a pass. */
  lemma NoSwap(s: seq<int>, j: nat)
    requires j + 1 < |s| && MaximumAt(s, j) && s[j] <= s[j + 1]
    ensures MaximumAt(s, j + 1)
  {
  }

  lemma PassDone(s: seq<int>, k: nat)
    requires 0 < k <= |s| && SortedFrom(s, k) && MaximumAt(s, k - 1)
    ensures SortedFrom(s, k - 1)
  {
  }

  lemma PassesDone(s: seq<int>, k: int)
    requires SortedFrom(s, k) && k <= 1
    ensures Sorted(s)
  {
  }

  lemma Unsorted(s: seq<int>)
    ensures SortedFrom(s, |s|)
    ensures s != [] ==> MaximumAt(s, 0)
  {
  }

  /** Bubble sort of the first `size` cards, in place. */
  method SortCards(cards: array<int>, size: nat)
    requires size <= cards.Length
    modifies cards
    ensures Sorted(cards[..size])
    ensures multiset(cards[..size]) == multiset(old(cards[..size]))
    ensures cards[size..] == old(cards[size..])
  {
    hide Sorted, SortedFrom, MaximumAt, Swapped;
    var i := 0;
    Unsorted(cards[..size]);
    while i < size - 1
      invariant 0 <= i <= size && (0 < size ==> i < size)
      invariant multiset(cards[..size]) == multiset(old(cards[..size]))
      invariant cards[size..] == old(cards[size..])
      invariant SortedFrom(cards[..size], size - i)
    {
      var j := 0;
      Unsorted(cards[..size]);
      while j < size - i - 1
        invariant 0 <= j <= size - i - 1
        invariant multiset(cards[..size]) == multiset(old(cards[..size]))
        invariant cards[size..] == old(cards[size..])
        invariant SortedFrom(cards[..size], size - i)
        invariant MaximumAt(cards[..size], j)
      {
        ghost var s := cards[..size];
        if cards[j] > cards[j + 1] {
          SwapKeeps(s, j);
          SwapSorts(s, size - i, j);
          Swap(cards, size, j);
        } else {
          NoSwap(s, j);
        }
        j := j + 1;
      }
      PassDone(cards[..size], size - i);
      i := i + 1;
    }
    PassesDone(cards[..size], size - i);
  }

  // ------------------------------------------------- runs of equal elements

  lemma {:induction false} Constant(s: seq<int>, x: int)
    requires forall i :: 0 <= i < |s| ==> s[i] == x
    ensures multiset(s)[x] == |s|
    ensures forall y :: y != x ==> multiset(s)[y] == 0
  {
    if s != [] {
      var last := |s| - 1;
      assert s == s[..last] + [s[last]];
      Constant(s[..last], x);
    }
  }

  /** A block of equal elements gives at least its length to the count of their value. */
  lemma BlockCount(s: seq<int>, p: nat, e: nat)
    requires p < e <= |s|
    requires forall i :: p <= i < e ==> s[i] == s[p]
    ensures multiset(s)[s[p]] >= e - p
  {
    assert s == s[..p] + s[p..e] + s[e..];
    Constant(s[p..e], s[p]);
  }

  /** In a sorted sequence the length of a maximal run is the count of its value. */
  lemma RunCount(s: seq<int>, p: nat, e: nat)
    requires Sorted(s) && p < e <= |s|
    requires forall i :: p <= i < e ==> s[i] == s[p]
    requires 0 < p ==> s[p - 1] < s[p]
    requires e < |s| ==> s[p] < s[e]
    ensures multiset(s)[s[p]] == e - p
  {
    hide Sorted;
    NotBelow(s, p, s[p]);
    NotAbove(s, e, s[p]);
    Constant(s[p..e], s[p]);
    CountInThree(s, p, e, s[p]);
  }

  lemma CountInThree(s: seq<int>, p: nat, e: nat, x: int)
    requires p <= e <= |s|
    ensures multiset(s)[x] == multiset(s[..p])[x] + multiset(s[p..e])[x] + multiset(s[e..])[x]
  {
    assert s == s[..p] + s[p..e] + s[e..];
  }

  lemma NotBelow(s: seq<int>, p: nat, x: int)
    requires Sorted(s) && p <= |s| && (0 < p ==> s[p - 1] < x)
    ensures multiset(s[..p])[x] == 0
  {
    assert x !in s[..p];
  }

  lemma NotAbove(s: seq<int>, e: nat, x: int)
    requires Sorted(s) && e <= |s| && (e < |s| ==> x < s[e])
    ensures multiset(s[e..])[x] == 0
  {
    assert x !in s[e..];
  }

  lemma NothingBetween(s: seq<int>, i: nat, x: int)
    requires Sorted(s) && 0 < i < |s| && s[i - 1] < x < s[i]
    ensures multiset(s)[x] == 0
  {
    assert x !in s;
  }

  /** Single cards whose values rise by one form a chain with nothing beside it. */
  lemma {:induction false} SinglesAreChain(s: seq<int>, v: int)
    requires forall i :: 0 <= i < |s| ==> s[i] == v + i
    ensures Shape(multiset(s), v, |s|, 1, 0)
  {
    if s != [] {
      var last := |s| - 1;
      assert s == s[..last] + [s[last]];
      SinglesAreChain(s[..last], v);
    }
  }

  /** So do pairs. */
  lemma {:induction false} PairsAreChain(s: seq<int>, v: int, k: nat)
    requires |s| == 2 * k
    requires forall i :: 0 <= i < |s| ==> s[i] == v + i / 2
    ensures Shape(multiset(s), v, k, 2, 0)
  {
    hide Shape;
    if k == 0 {
      NoPairs(v);
    } else {
      var p := 2 * (k - 1);
      assert s == s[..p] + [s[p], s[p + 1]];
      PairsAreChain(s[..p], v, k - 1);
      PairAdded(multiset(s[..p]), v, k - 1);
    }
  }

  lemma NoPairs(v: int)
    ensures Shape(multiset{}, v, 0, 2, 0)
  {
  }

  lemma PairAdded(m: multiset<int>, v: int, k: nat)
    requires Shape(m, v, k, 2, 0)
    ensures Shape(m + multiset{v + k, v + k}, v, k + 1, 2, 0)
  {
  }

  // ------------------------------------------------------------------ chains

  /** No card of a chain pattern can be a two or a joker, and no value is skipped. */
  lemma ChainCards(s: seq<int>, h: Hand, i: nat)
    requires Sorted(s) && 0 < i < |s| && Matches(multiset(s), h)
    requires h.kind == SingleChain || h.kind == DoubleChain
    ensures s[i] < TWO && s[i] - s[i - 1] <= 1
    ensures multiset(s)[s[i - 1]] == Copies(h)
  {
    var m := multiset(s);
    assert s[i] in m && s[i - 1] in m;
    if s[i] - s[i - 1] > 1 {
      assert m[s[i - 1] + 1] == Copies(h);
      NothingBetween(s, i, s[i - 1] + 1);
    }
  }

  lemma NoChainWithHighCard(s: seq<int>, i: nat)
    requires i < |s| && s[i] >= TWO
    ensures NoHandOf(multiset(s), {SingleChain, DoubleChain})
  {
    assert s[i] in multiset(s);
  }

  lemma NoSingleChain(s: seq<int>, i: nat)
    requires Sorted(s) && 0 < i < |s| && s[i] - s[i - 1] != 1
    ensures NoHandOf(multiset(s), {SingleChain})
  {
    forall h: Hand | h.kind == SingleChain
      ensures !Matches(multiset(s), h)
    {
      if Matches(multiset(s), h) {
        ChainCards(s, h, i);
        BlockCount(s, i - 1, i + 1);
      }
    }
  }

  /** The first `i` cards are pairs (the last possibly half) of rising values. */
  ghost predicate PairsUpTo(s: seq<int>, i: nat)
    requires i <= |s|
  {
    forall j :: 0 <= j < i ==> s[j] == s[0] + j / 2
  }

  lemma NoDoubleChain(s: seq<int>, i: nat)
    requires Sorted(s) && 0 < i < |s| && PairsUpTo(s, i)
    requires if i % 2 == 1 then s[i] != s[i - 1] else s[i] - s[i - 1] != 1
    ensures NoHandOf(multiset(s), {DoubleChain})
  {
    forall h: Hand | h.kind == DoubleChain
      ensures !Matches(multiset(s), h)
    {
      if Matches(multiset(s), h) {
        ChainCards(s, h, i);
        if i % 2 == 1 {
          RunCount(s, i - 1, i);
        } else {
          BlockCount(s, i - 2, i + 1);
        }
      }
    }
  }

  method IsSingleChain(cards: array<int>, size: nat, pi: PokerInfo) returns (b: bool)
    requires size <= cards.Length && size < 20 && Sorted(cards[..size])
    modifies pi
    ensures b ==> pi.kind == SingleChain && Matches(multiset(cards[..size]), pi.View())
    ensures !b ==> pi.View() == old(pi.View())
    ensures !b ==> NoHandOf(multiset(cards[..size]), {SingleChain})
  {
    if size < 5 {
      return false;
    }
    ghost var s := cards[..size];
    var i := 0;
    while i < size
      invariant 0 <= i <= size
      invariant forall j :: 0 <= j < i ==> s[j] == s[0] + j && s[j] < TWO
    {
      if cards[i] >= TWO {
        NoChainWithHighCard(s, i);
        return false;
      }
      if i > 0 && cards[i] - cards[i - 1] != 1 {
        NoSingleChain(s, i);
        return false;
      }
      i := i + 1;
    }
    SinglesAreChain(s, s[0]);
    assert s[size - 1] < TWO;
    pi.Set(SingleChain, cards[0], size);
    return true;
  }

  method IsDoubleChain(cards: array<int>, size: nat, pi: PokerInfo) returns (b: bool)
    requires size <= cards.Length && size < 20 && Sorted(cards[..size])
    modifies pi
    ensures b ==> pi.kind == DoubleChain && Matches(multiset(cards[..size]), pi.View())
    ensures !b ==> pi.View() == old(pi.View())
    ensures !b ==> NoHandOf(multiset(cards[..size]), {DoubleChain})
  {
    if size % 2 != 0 || size < 6 {
      return false;
    }
    ghost var s := cards[..size];
    var i := 1;
    while i < size
      invariant 1 <= i <= size
      invariant PairsUpTo(s, i)
      invariant 1 < i ==> s[i - 1] < TWO
    {
      if cards[i] >= TWO {
        NoChainWithHighCard(s, i);
        return false;
      }
      if i % 2 != 0 {
        if cards[i] != cards[i - 1] {
          NoDoubleChain(s, i);
          return false;
        }
      } else {
        if cards[i] - cards[i - 1] != 1 {
          NoDoubleChain(s, i);
          return false;
        }
      }
      i := i + 1;
    }
    PairsAreChain(s, s[0], size / 2);
    pi.Set(DoubleChain, cards[0], size);
    return true;
  }

  // ------------------------------------- chains of triples, with or without kickers

  const ThreeChains := {ThreeChain, ThreeChainSingle, ThreeChainDouble}

  /** `s[p..e]` is a run of one value that does not start earlier. */
  ghost predicate Run(s: seq<int>, p: nat, e: nat)
  {
    && p < e <= |s|
    && (forall i :: p <= i < e ==> s[i] == s[p])
    && (0 < p ==> s[p - 1] < s[p])
  }

  /** The run `s[p..e]` does not go on at `e` either. */
  ghost predicate FullRun(s: seq<int>, p: nat, e: nat)
  {
    Run(s, p, e) && (e < |s| ==> s[p] < s[e])
  }

  lemma RunStarts(s: seq<int>)
    requires s != []
    ensures Run(s, 0, 1)
  {
  }

  lemma RunGrows(s: seq<int>, p: nat, i: nat)
    requires Run(s, p, i) && i < |s| && s[i] == s[i - 1]
    ensures Run(s, p, i + 1)
    ensures i + 1 == |s| ==> FullRun(s, p, i + 1)
  {
  }

  lemma RunEnds(s: seq<int>, p: nat, i: nat)
    requires Sorted(s) && Run(s, p, i) && i < |s| && s[i] != s[i - 1]
    ensures FullRun(s, p, i) && Run(s, i, i + 1)
    ensures i + 1 == |s| ==> FullRun(s, i, i + 1)
  {
  }

  ghost predicate Ascending(vs: seq<int>)
  {
    forall i, j :: 0 <= i < j < |vs| ==> vs[i] < vs[j]
  }

  /** The scan has sorted the runs of `s[..p]` into triples `v3` and kickers `vx` of `q` cards each. */
  ghost predicate ChainScan(s: seq<int>, p: nat, v3: seq<int>, vx: seq<int>, q: int)
  {
    && Sorted(s) && p <= |s|
    && (q == 1 || (q == 2 && vx != []))
    && p == 3 * |v3| + (if q == 1 then |vx| else 2 * |vx|)
    && Ascending(v3) && Ascending(vx)
    && (forall i :: 0 <= i < |v3| ==> multiset(s)[v3[i]] == 3 && (p < |s| ==> v3[i] < s[p]))
    && (forall i :: 0 <= i < |vx| ==> multiset(s)[vx[i]] == q && (p < |s| ==> vx[i] < s[p]))
    && (forall i :: 0 <= i < p ==> s[i] in v3 || s[i] in vx)
  }

  /** The scan of all cards; its loop does not look at a single card. */
  ghost predicate Scanned(s: seq<int>, v3: seq<int>, vx: seq<int>, q: int)
  {
    if |s| == 1 then v3 == [] else ChainScan(s, |s|, v3, vx, q)
  }

  /**
   * The cards that fill one slot for kickers more than the source has: triples and seven single cards, of
   * which two are the highest of all.
   */
  ghost predicate SevenSingles(s: seq<int>)
  {
    && |s| >= 2
    && (forall x :: x in s ==> multiset(s)[x] in {1, 3})
    && multiset(s)[s[|s| - 2]] == multiset(s)[s[|s| - 1]] == 1
    && exists singles :: |singles| == 7 && SinglesOf(s, singles)
  }

  ghost predicate SinglesOf(s: seq<int>, singles: seq<int>)
  {
    Ascending(singles) && forall x :: x in singles <==> multiset(s)[x] == 1
  }

  lemma {:induction false} AscendingSet(vs: seq<int>)
    requires Ascending(vs)
    ensures |set x | x in vs| == |vs|
  {
    if vs == [] {
      assert (set x | x in vs) == {};
    } else {
      var init, last := vs[..|vs| - 1], vs[|vs| - 1];
      AscendingSet(init);
      assert (set x | x in vs) == (set x | x in init) + {last};
    }
  }

  /** An ascending list of values from another one is no longer. */
  lemma AscendingWithin(vs: seq<int>, ws: seq<int>)
    requires Ascending(vs) && Ascending(ws) && forall x :: x in vs ==> x in ws
    ensures |vs| <= |ws|
  {
    AscendingSet(vs);
    AscendingSet(ws);
    SubsetSize(set x | x in vs, set x | x in ws);
  }

  lemma SubsetSize(a: set<int>, b: set<int>)
    requires a <= b
    ensures |a| <= |b|
  {
    assert b == a + (b - a) && |a + (b - a)| == |a| + |b - a|;
  }

  /** The scan of all cards has seven kickers exactly if the cards are like that. */
  lemma SeventhKicker(s: seq<int>, v3: seq<int>, vx: seq<int>, q: int)
    requires ChainScan(s, |s|, v3, vx, q)
    ensures SevenSingles(s) ==> |vx| == 7
    ensures |vx| == 7 && q == 1 && |s| >= 2 && multiset(s)[s[|s| - 2]] == multiset(s)[s[|s| - 1]] == 1 ==>
      SevenSingles(s)
  {
    if SevenSingles(s) {
      var singles :| |singles| == 7 && SinglesOf(s, singles);
      assert vx != [] ==> vx[0] in s && multiset(s)[vx[0]] == q;
      AscendingWithin(vx, singles);
      AscendingWithin(singles, vx);
    }
    if |vx| == 7 && q == 1 { assert SinglesOf(s, vx); }
  }

  lemma HighestKickers(s: seq<int>, v3: seq<int>, vx: seq<int>)
    requires ChainScan(s, |s|, v3, vx, 1) && |vx| == 7 && |s| >= 2 && vx[5] == s[|s| - 2] && vx[6] == s[|s| - 1]
    ensures SevenSingles(s)
  {
    SeventhKicker(s, v3, vx, 1);
  }

  lemma LoopEnds(s: seq<int>, v3: seq<int>, vx: seq<int>, q: int)
    requires |s| >= 2 ==> ChainScan(s, |s|, v3, vx, q)
    ensures SevenSingles(s) ==> |vx| == 7
  {
    if |s| >= 2 { SeventhKicker(s, v3, vx, q); }
  }

  /** Seven values, each once. */
  const SevenCards: seq<int> := seq(7, i => 66 + i)

  /** Ten cards that are like that: three threes, and one each of seven other values. */
  const TenCards := [65, 65, 65] + SevenCards

  lemma TenCardsOverfull()
    ensures Sorted(TenCards) && SevenSingles(TenCards)
  {
    TenCounts();
    TenSingles();
    assert |SevenCards| == 7;
  }

  lemma TenCounts()
    ensures forall x :: multiset(TenCards)[x] == if x == 65 then 3 else if 66 <= x < 73 then 1 else 0
  {
    SinglesAreChain(SevenCards, 66);
    assert multiset(TenCards) == multiset([65, 65, 65]) + multiset(SevenCards);
  }

  lemma TenSingles()
    ensures SinglesOf(TenCards, SevenCards)
  {
    TenCounts();
    forall x
      ensures x in SevenCards <==> 66 <= x < 73
    {
      if 66 <= x < 73 { assert SevenCards[x - 66] == x; }
    }
  }

  /** With six kickers and two cards to come the cards are not like that. */
  lemma TooManySingles(s: seq<int>, p: nat, v3: seq<int>, vx: seq<int>, q: int)
    requires ChainScan(s, p, v3, vx, q) && p < |s| - 1 && |vx| >= 6
    ensures !SevenSingles(s)
  {
    if SevenSingles(s) {
      var singles :| |singles| == 7 && SinglesOf(s, singles);
      var last, next := s[|s| - 1], s[|s| - 2];
      assert multiset(s)[vx[0]] == q && vx[0] in s;
      TwoCards(s);
      AscendingWithin(vx + [next, last], singles);
    }
  }

  lemma TwoCards(s: seq<int>)
    requires Sorted(s) && |s| >= 2 && multiset(s)[s[|s| - 1]] == 1
    ensures s[|s| - 2] < s[|s| - 1]
  {
    if s[|s| - 2] == s[|s| - 1] { BlockCount(s, |s| - 2, |s|); }
  }

  lemma ScanStart(s: seq<int>)
    requires Sorted(s)
    ensures ChainScan(s, 0, [], [], 1)
  {
  }

  lemma ScanTriple(s: seq<int>, p: nat, e: nat, v3: seq<int>, vx: seq<int>, q: int)
    requires ChainScan(s, p, v3, vx, q) && FullRun(s, p, e) && e - p == 3
    ensures ChainScan(s, e, v3 + [s[p]], vx, q)
  {
    RunCount(s, p, e);
  }

  lemma ScanKicker(s: seq<int>, p: nat, e: nat, v3: seq<int>, vx: seq<int>, q: int)
    requires ChainScan(s, p, v3, vx, q) && FullRun(s, p, e) && 1 <= e - p <= 2
    requires vx == [] || e - p == q
    ensures ChainScan(s, e, v3, vx + [s[p]], e - p)
  {
    RunCount(s, p, e);
  }

  lemma SomeKicker(s: seq<int>, p: nat, v3: seq<int>, vx: seq<int>, q: int)
    requires ChainScan(s, p, v3, vx, q) && q != 1
    ensures vx != []
  {
  }

  lemma NoChainWithFour(s: seq<int>, p: nat, e: nat)
    requires FullRun(s, p, e) && e - p > 3
    ensures NoHandOf(multiset(s), ThreeChains) && !SevenSingles(s)
  {
    var x := s[p];
    BlockCount(s, p, e);
    forall h: Hand | h.kind in ThreeChains
      ensures !Matches(multiset(s), h)
    {
      if Matches(multiset(s), h) { AtMostThree(multiset(s), h, x); }
    }
  }

  lemma AtMostThree(m: multiset<int>, h: Hand, x: int)
    requires Matches(m, h) && h.kind in ThreeChains
    ensures m[x] <= 3
  {
    if h.value <= x < h.value + Body(h) { BodyCount(m, h, x); } else { OutsideBody(m, h, x); }
  }

  lemma NoChainWithMixedKickers(s: seq<int>, p: nat, e: nat, v3: seq<int>, vx: seq<int>, q: int)
    requires ChainScan(s, p, v3, vx, q) && FullRun(s, p, e) && 1 <= e - p <= 2
    requires vx != [] && e - p != q
    ensures NoHandOf(multiset(s), ThreeChains) && !SevenSingles(s)
  {
    RunCount(s, p, e);
    assert multiset(s)[vx[0]] == q;
  }

  /** Values with three copies and other values with `q` copies bound the number of cards. */
  lemma {:induction false} Total(m: multiset<int>, v: int, k: nat, xs: seq<int>, q: int)
    requires q == 1 || q == 2
    requires forall x :: v <= x < v + k ==> m[x] >= 3
    requires forall i :: 0 <= i < |xs| ==> m[xs[i]] >= q && !(v <= xs[i] < v + k)
    requires Ascending(xs)
    ensures |m| >= 3 * k + (if q == 1 then |xs| else 2 * |xs|)
    decreases k + |xs|
  {
    if k > 0 {
      var x := v + k - 1;
      Total(m[x := m[x] - 3], v, k - 1, xs, q);
    } else if xs != [] {
      var x := xs[|xs| - 1];
      Total(m[x := m[x] - q], v, k, xs[..|xs| - 1], q);
    }
  }

  lemma NoChainWithManyRuns(s: seq<int>, p: nat, v3: seq<int>, vx: seq<int>, q: int)
    requires ChainScan(s, p, v3, vx, q) && p < |s| - 1 < 19
    requires |v3| >= 6 || |vx| >= 6
    ensures NoHandOf(multiset(s), ThreeChains) && !SevenSingles(s)
  {
    assert |v3| < 6;
    TooManySingles(s, p, v3, vx, q);
    hide SevenSingles;
    forall h: Hand | h.kind in ThreeChains
      ensures !Matches(multiset(s), h)
    {
      if Matches(multiset(s), h) {
        assert multiset(s)[vx[0]] == q;
        Total(multiset(s), h.value, Body(h), vx, q);
      }
    }
  }

  /** An ascending list of exactly the values v .. v + k - 1 is that interval in order. */
  lemma {:induction false} IntervalList(vs: seq<int>, v: int, k: nat)
    requires Ascending(vs)
    requires forall i :: 0 <= i < |vs| ==> v <= vs[i] < v + k
    requires forall x :: v <= x < v + k ==> x in vs
    ensures |vs| == k && forall i :: 0 <= i < |vs| ==> vs[i] == v + i
  {
    var first := if vs == [] then v else vs[0];
    if k > 0 {
      assert v + k - 1 in vs;
      var last := |vs| - 1;
      assert vs[last] == v + k - 1;
      var init := vs[..last];
      forall x | v <= x < v + k - 1
        ensures x in init
      {
        assert x in vs;
      }
      IntervalList(init, v, k - 1);
    }
  }

  /** A complete scan reads off the only triple chain the cards can be. */
  lemma ScanDecides(s: seq<int>, v3: seq<int>, vx: seq<int>, q: int, h: Hand)
    requires ChainScan(s, |s|, v3, vx, q)
    requires h.kind in ThreeChains && Matches(multiset(s), h)
    ensures |v3| == Body(h) && forall i :: 0 <= i < |v3| ==> v3[i] == h.value + i
    ensures h.kind == ThreeChain ==> vx == []
    ensures h.kind == ThreeChainSingle ==> q == 1 && |vx| == |v3|
    ensures h.kind == ThreeChainDouble ==> q == 2 && |vx| == |v3|
  {
    var m := multiset(s);
    forall i | 0 <= i < |v3|
      ensures h.value <= v3[i] < h.value + Body(h)
    {
      if !(h.value <= v3[i] < h.value + Body(h)) { OutsideBody(m, h, v3[i]); }
    }
    forall x | h.value <= x < h.value + Body(h)
      ensures x in v3
    {
      BodyCount(m, h, x);
      assert x in s;
    }
    IntervalList(v3, h.value, Body(h));
    if vx != [] { assert m[vx[0]] == q; }
  }

  lemma ScanMatches(s: seq<int>, v3: seq<int>, vx: seq<int>, q: int)
    requires Scanned(s, v3, vx, q) && 1 < |v3| && |s| < 20
    requires forall i :: 0 < i < |v3| ==> v3[i] - v3[i - 1] == 1 && v3[i] < TWO
    ensures q == 1 || q == 2
    ensures vx == [] ==> Matches(multiset(s), Hand(ThreeChain, v3[0], |s|))
    ensures |vx| == |v3| && q == 1 ==> Matches(multiset(s), Hand(ThreeChainSingle, v3[0], |s|))
    ensures |vx| == |v3| && q == 2 ==> Matches(multiset(s), Hand(ThreeChainDouble, v3[0], |s|))
  {
    hide Scanned, ChainScan, Sorted;
    Consecutive(v3, |v3|);
    assert v3[|v3| - 1] < TWO;
    ScanSize(s, v3, vx, q);
    ScanShape(s, v3, vx, q);
  }

  lemma ScanSize(s: seq<int>, v3: seq<int>, vx: seq<int>, q: int)
    requires Scanned(s, v3, vx, q) && v3 != []
    ensures ChainScan(s, |s|, v3, vx, q)
    ensures (q == 1 || (q == 2 && vx != [])) && |s| == 3 * |v3| + (if q == 1 then |vx| else 2 * |vx|)
  {
  }

  lemma ScanShape(s: seq<int>, v3: seq<int>, vx: seq<int>, q: int)
    requires ChainScan(s, |s|, v3, vx, q) && v3 != []
    requires forall i :: 0 <= i < |v3| ==> v3[i] == v3[0] + i
    ensures Shape(multiset(s), v3[0], |v3|, 3, q)
    ensures vx == [] ==> Shape(multiset(s), v3[0], |v3|, 3, 0)
  {
    var m, v, k := multiset(s), v3[0], |v3|;
    forall x | v <= x < v + k
      ensures m[x] == 3
    {
      assert v3[x - v] == x;
    }
    forall x | x in m && !(v <= x < v + k)
      ensures x in vx && m[x] == q
    {
      assert x in s;
      assert x !in v3;
    }
  }

  lemma {:induction false} Consecutive(vs: seq<int>, n: nat)
    requires n <= |vs| && forall i :: 0 < i < |vs| ==> vs[i] - vs[i - 1] == 1
    ensures forall i :: 0 <= i < n ==> vs[i] == vs[0] + i
  {
    if n > 1 {
      Consecutive(vs, n - 1);
      assert vs[n - 1] - vs[n - 2] == 1;
    }
  }

  lemma NoChainInScan(s: seq<int>, v3: seq<int>, vx: seq<int>, q: int, i: nat)
    requires Scanned(s, v3, vx, q)
    requires 0 < i < |v3| && (v3[i] - v3[i - 1] != 1 || v3[i] >= TWO)
    ensures NoHandOf(multiset(s), ThreeChains)
  {
    forall h: Hand | h.kind in ThreeChains
      ensures !Matches(multiset(s), h)
    {
      if Matches(multiset(s), h) { ScanDecides(s, v3, vx, q, h); }
    }
  }

  /** With no two triples, or kickers that do not fit them in number, there is no triple chain. */
  lemma NoChainWithoutFit(s: seq<int>, v3: seq<int>, vx: seq<int>, q: int)
    requires Scanned(s, v3, vx, q)
    requires |s| < 20 && (|v3| <= 1 || (|v3| != |vx| && vx != []))
    ensures NoHandOf(multiset(s), ThreeChains)
  {
    forall h: Hand | h.kind in ThreeChains
      ensures !Matches(multiset(s), h)
    {
      if |s| > 1 && Matches(multiset(s), h) { ScanDecides(s, v3, vx, q, h); }
    }
  }

  /** Files the full run `s[p..e]` of `sameNum` cards under `v3` or `vx`, or rules a triple chain out. */
  method FileRun(v3: array<int>, v3Count: nat, vx: array<int>, vxCount: nat, currCount: int,
                 value: int, sameNum: int, ghost s: seq<int>, ghost p: nat, ghost e: nat)
    returns (ok: bool, v3Pos: nat, vxPos: nat, currNum: int)
    requires v3 != vx && v3Count < v3.Length && vxCount < vx.Length
    requires ChainScan(s, p, v3[..v3Count], vx[..vxCount], currCount)
    requires FullRun(s, p, e) && value == s[p] && sameNum == e - p
    modifies v3, vx
    ensures v3Count <= v3Pos <= v3Count + 1 && vxCount <= vxPos <= vxCount + 1
    ensures ok ==> ChainScan(s, e, v3[..v3Pos], vx[..vxPos], currNum)
    ensures ok && vxPos > vxCount ==> vx[vxPos - 1] == value
    ensures !ok ==> NoHandOf(multiset(s), ThreeChains) && !SevenSingles(s)
  {
    hide ChainScan, NoHandOf, Sorted, SevenSingles;
    ghost var threes, others := v3[..v3Count], vx[..vxCount];
    v3Pos, vxPos, currNum, ok := v3Count, vxCount, currCount, true;
    if sameNum == 4 {
      NoChainWithFour(s, p, e);
      ok := false;
    } else if sameNum == 3 {
      ScanTriple(s, p, e, threes, others, currNum);
      v3[v3Pos] := value;
      v3Pos := v3Pos + 1;
      assert v3[..v3Pos] == threes + [value] && vx[..vxPos] == others;
    } else if sameNum > 4 {
      NoChainWithFour(s, p, e);
      ok := false;
    } else if sameNum != currNum && vxPos != 0 {
      NoChainWithMixedKickers(s, p, e, threes, others, currNum);
      ok := false;
    } else {
      ScanKicker(s, p, e, threes, others, currNum);
      currNum := sameNum;
      vx[vxPos] := value;
      vxPos := vxPos + 1;
      assert vx[..vxPos] == others + [value] && v3[..v3Pos] == threes;
    }
  }

  /** Files the last card `s[p]`, which differs from the one before, under `vx`, or rules a triple chain out. */
  method FileLast(vx: array<int>, vxCount: nat, currNum: int, value: int, ghost s: seq<int>, ghost p: nat,
                  ghost threes: seq<int>)
    returns (ok: bool, vxPos: nat)
    requires vxCount <= 6 < vx.Length && ChainScan(s, p, threes, vx[..vxCount], currNum)
    requires 0 < p == |s| - 1 && FullRun(s, p, |s|) && value == s[p] && (vxCount == 6 ==> vx[5] == s[p - 1])
    modifies vx
    ensures ok ==> vxPos == vxCount + 1 && ChainScan(s, |s|, threes, vx[..vxPos], currNum)
    ensures ok && vxPos == 7 ==> SevenSingles(s)
    ensures !ok ==> NoHandOf(multiset(s), ThreeChains) && !SevenSingles(s)
    ensures !ok ==> vxPos == vxCount
  {
    hide ChainScan, NoHandOf, Sorted, SevenSingles;
    ghost var others := vx[..vxCount];
    vxPos := vxCount;
    if currNum != 1 {
      SomeKicker(s, p, threes, others, currNum);
      NoChainWithMixedKickers(s, p, |s|, threes, others, currNum);
      return false, vxPos;
    }
    ScanKicker(s, p, |s|, threes, others, currNum);
    vx[vxPos] := value;
    vxPos := vxPos + 1;
    assert vx[..vxPos] == others + [s[p]];
    if vxPos == 7 {
      HighestKickers(s, threes, vx[..7]);
    }
    ok := true;
  }

  /**
   * The counting loop: it files every run of the sorted cards, or gives up. The seventh slot of `vx`, which
   * the source does not have, is written exactly for seven single cards with two of them on top.
   */
  method CountRuns(cards: array<int>, size: nat)
    returns (ok: bool, v3: array<int>, v3Pos: nat, vx: array<int>, vxPos: nat, currNum: int)
    requires size <= cards.Length && size < 20 && Sorted(cards[..size])
    ensures v3Pos <= v3.Length && vxPos <= vx.Length
    ensures ok ==> Scanned(cards[..size], v3[..v3Pos], vx[..vxPos], currNum)
    ensures !ok ==> NoHandOf(multiset(cards[..size]), ThreeChains)
    ensures vxPos == 7 <==> SevenSingles(cards[..size])
  {
    hide ChainScan, NoHandOf, Run, FullRun, Sorted, SevenSingles;
    v3 := new int[6];
    vx := new int[7];
    v3Pos, vxPos, currNum, ok := 0, 0, 1, true;
    var sameNum := 1;
    ghost var s, p := cards[..size], 0;
    ScanStart(s);
    if size > 0 { RunStarts(s); }
    assert v3[..0] == [] && vx[..0] == [];
    var i := 1;
    while i < size
      invariant 1 <= i && (i <= size || size == 0)
      invariant ok && v3Pos <= 6 && vxPos <= 7
      invariant i == 1 ==> p == 0 && v3Pos == 0
      invariant size <= 1 ==> i == 1
      invariant ChainScan(s, p, v3[..v3Pos], vx[..vxPos], currNum)
      invariant i < size ==> Run(s, p, i) && p < i && sameNum == i - p && s[p] == s[i - 1]
      invariant i == size && 1 < size ==> p == size
      invariant (i < size ==> vxPos <= 6) && (vxPos == 7 ==> SevenSingles(s))
    {
      if v3Pos >= 6 || vxPos >= 6 {
        NoChainWithManyRuns(s, p, v3[..v3Pos], vx[..vxPos], currNum);
        ok := false;
        return;
      }
      if cards[i] == cards[i - 1] {
        RunGrows(s, p, i);
        sameNum := sameNum + 1;
        if i < size - 1 {
          i := i + 1;
          continue;
        }
      } else {
        RunEnds(s, p, i);
      }
      ok, v3Pos, vxPos, currNum :=
        FileRun(v3, v3Pos, vx, vxPos, currNum, cards[i - 1], sameNum, s, p, p + sameNum);
      if !ok {
        return;
      }
      p := p + sameNum;
      sameNum := 1;
      if i == size - 1 && cards[i] != cards[i - 1] {
        ghost var threes := v3[..v3Pos];
        ok, vxPos := FileLast(vx, vxPos, currNum, cards[i], s, p, threes);
        if !ok {
          return;
        }
        p := size;
      }
      i := i + 1;
    }
    LoopEnds(s, v3[..v3Pos], vx[..vxPos], currNum);
  }

  /** Triples of successive values, alone or with as many single cards or pairs. */
  method IsThreeChain(cards: array<int>, size: nat, pi: PokerInfo) returns (b: bool)
    requires size <= cards.Length && size < 20 && Sorted(cards[..size])
    requires pi.kind == Err
    modifies pi
    ensures b ==> pi.kind in ThreeChains && Matches(multiset(cards[..size]), pi.View())
    ensures !b ==> pi.kind == Err && NoHandOf(multiset(cards[..size]), ThreeChains)
  {
    hide Scanned, Matches, NoHandOf;
    var ok, v3, v3Pos, vx, vxPos, currNum := CountRuns(cards, size);
    if !ok {
      return false;
    }
    ghost var s := cards[..size];
    ghost var threes, others := v3[..v3Pos], vx[..vxPos];
    if v3Pos <= 1 || (v3Pos != vxPos && vxPos != 0) {
      NoChainWithoutFit(s, threes, others, currNum);
    }
    if v3Pos > 1 {
      var i := 1;
      while i < v3Pos
        invariant 1 <= i <= v3Pos
        invariant forall j :: 0 < j < i ==> v3[j] - v3[j - 1] == 1 && v3[j] < TWO
      {
        if v3[i] - v3[i - 1] != 1 {
          NoChainInScan(s, v3[..v3Pos], vx[..vxPos], currNum, i);
          return false;
        }
        if v3[i] >= TWO {
          NoChainInScan(s, v3[..v3Pos], vx[..vxPos], currNum, i);
          return false;
        }
        i := i + 1;
      }
      ScanMatches(s, threes, others, currNum);
      if v3Pos == vxPos {
        if currNum == 2 {
          pi.kind := ThreeChainDouble;
        } else if currNum == 1 {
          pi.kind := ThreeChainSingle;
        }
      } else if vxPos == 0 {
        pi.kind := ThreeChain;
      }
      pi.length := size;
    }
    if pi.kind != Err {
      pi.value := v3[0];
    }
    return pi.kind != Err;
  }

  // ----------------------------------- three or four of a kind and what goes with them

  const MainKinds := {ThreeOne, ThreeDouble, FourTwoSingle, FourTwoDouble, Bomb}

  /** The scan of `s[..p]` has met `mains` cards of the value `main` and `num` kickers of `q` cards each. */
  ghost predicate MainScan(s: seq<int>, p: nat, main: int, mains: int, num: nat, q: int)
  {
    && Sorted(s) && NoZero(s) && p <= |s|
    && (q == 1 || (q == 2 && num > 0))
    && (if main == 0 then mains == 0 else mains in {3, 4} && multiset(s)[main] == mains)
    && p == mains + (if q == 1 then num else 2 * num)
    && (main != 0 && p < |s| ==> main < s[p])
    && (forall i :: 0 <= i < p ==> s[i] == main || (0 < num && multiset(s)[s[i]] == q))
    && (num > 0 ==> exists i :: 0 <= i < p && multiset(s)[s[i]] == q && s[i] != main)
  }

  ghost predicate MainScanned(s: seq<int>, main: int, mains: int, num: nat, q: int)
  {
    if |s| == 1 then mains == 0 else MainScan(s, |s|, main, mains, num, q)
  }

  lemma MainScanStart(s: seq<int>)
    requires Sorted(s) && NoZero(s)
    ensures MainScan(s, 0, 0, 0, 0, 1)
  {
  }

  lemma ScanMain(s: seq<int>, p: nat, e: nat, num: nat, q: int)
    requires MainScan(s, p, 0, 0, num, q) && FullRun(s, p, e) && 3 <= e - p <= 4
    ensures MainScan(s, e, s[p], e - p, num, q)
  {
    RunCount(s, p, e);
    if num > 0 {
      var i :| 0 <= i < p && multiset(s)[s[i]] == q && s[i] != 0;
      assert 0 <= i < e && s[i] != s[p];
    }
  }

  lemma ScanBeside(s: seq<int>, p: nat, e: nat, main: int, mains: int, num: nat, q: int)
    requires MainScan(s, p, main, mains, num, q) && FullRun(s, p, e) && 1 <= e - p <= 2
    requires num == 0 || e - p == q
    ensures MainScan(s, e, main, mains, num + 1, e - p)
  {
    RunCount(s, p, e);
    assert 0 <= p < e && multiset(s)[s[p]] == e - p && s[p] != main;
  }

  /** Outside its body a hand of these kinds has at most two cards of a value, and one number for all. */
  lemma MainBeside(m: multiset<int>, h: Hand, x: int, y: int)
    requires h.kind in MainKinds && Matches(m, h)
    requires x != y && x != h.value && y != h.value
    requires m[x] > 0 && m[y] > 0
    ensures m[x] == m[y] <= 2
  {
    CountsOfThree(m, h.value, x, y);
  }

  lemma MainAlone(m: multiset<int>, h: Hand, x: int)
    requires h.kind in MainKinds && Matches(m, h) && x != h.value
    ensures m[x] <= 2
  {
    CountsOfThree(m, h.value, x, if h.value + 1 != x then h.value + 1 else h.value + 2);
  }

  lemma NoMainWithFive(s: seq<int>, p: nat, e: nat)
    requires FullRun(s, p, e) && e - p > 4
    ensures NoHandOf(multiset(s), MainKinds)
  {
    BlockCount(s, p, e);
    forall h: Hand | h.kind in MainKinds
      ensures !Matches(multiset(s), h)
    {
      if Matches(multiset(s), h) && s[p] != h.value { MainAlone(multiset(s), h, s[p]); }
    }
  }

  lemma NoSecondMain(s: seq<int>, p: nat, e: nat, main: int, mains: int, num: nat, q: int)
    requires MainScan(s, p, main, mains, num, q) && FullRun(s, p, e) && main != 0 && e - p >= 3
    ensures NoHandOf(multiset(s), MainKinds)
  {
    BlockCount(s, p, e);
    forall h: Hand | h.kind in MainKinds
      ensures !Matches(multiset(s), h)
    {
      if Matches(multiset(s), h) {
        MainAlone(multiset(s), h, if s[p] != h.value then s[p] else main);
      }
    }
  }

  lemma NoMainWithMixedKickers(s: seq<int>, p: nat, e: nat, main: int, mains: int, num: nat, q: int)
    requires MainScan(s, p, main, mains, num, q) && FullRun(s, p, e) && 1 <= e - p <= 2
    requires num > 0 && e - p != q
    ensures NoHandOf(multiset(s), MainKinds)
  {
    RunCount(s, p, e);
    var i :| 0 <= i < p && multiset(s)[s[i]] == q && s[i] != main;
    MixedCounts(multiset(s), s[i], s[p]);
  }

  /** Beside the main cards all values occur equally often. */
  lemma MixedCounts(m: multiset<int>, x: int, y: int)
    requires x != y && m[x] != m[y] && 1 <= m[x] <= 2 && 1 <= m[y] <= 2
    ensures NoHandOf(m, MainKinds)
  {
    forall h: Hand | h.kind in MainKinds
      ensures !Matches(m, h)
    {
      if Matches(m, h) { MainBeside(m, h, x, y); }
    }
  }

  /** What the source makes of a complete scan. */
  ghost function MainKind(mains: int, num: nat, q: int): Kind
  {
    if mains == 3 then
      if num == 0 then Three
      else if num == 1 then (if q == 1 then ThreeOne else ThreeDouble)
      else Err
    else if mains == 4 then
      if num == 0 then Bomb
      else if num == 1 then (if q == 2 then FourTwoSingle else Err)
      else if num == 2 then (if q == 1 then FourTwoSingle else FourTwoDouble)
      else Err
    else Err
  }

  lemma MainScanMatches(s: seq<int>, main: int, mains: int, num: nat, q: int)
    requires MainScanned(s, main, mains, num, q) && |s| < 20
    requires MainKind(mains, num, q) != Err && |s| != 3
    ensures MainKind(mains, num, q) in MainKinds
    ensures Matches(multiset(s), Hand(MainKind(mains, num, q), main, |s|))
  {
    var m := multiset(s);
    forall x | x in m && x != main
      ensures m[x] == q && num > 0
    {
      assert x in s;
    }
  }

  /** A complete scan reads off the only hand of these kinds the cards can be. */
  lemma MainScanDecides(s: seq<int>, main: int, mains: int, num: nat, q: int, h: Hand)
    requires MainScan(s, |s|, main, mains, num, q)
    requires h.kind in MainKinds && Matches(multiset(s), h)
    ensures MainKind(mains, num, q) == h.kind && main == h.value
  {
    assert h.value in multiset(s) && h.value in s;
  }

  lemma NoMainInScan(s: seq<int>, main: int, mains: int, num: nat, q: int)
    requires MainScanned(s, main, mains, num, q)
    requires MainKind(mains, num, q) == Err
    ensures NoHandOf(multiset(s), MainKinds)
  {
    forall h: Hand | h.kind in MainKinds
      ensures !Matches(multiset(s), h)
    {
      if |s| > 1 && Matches(multiset(s), h) { MainScanDecides(s, main, mains, num, q, h); }
    }
  }

  method FileMainRun(mainValue: int, mainCount: int, kickers: nat, kickerSize: int,
                     value: int, sameNum: int, ghost s: seq<int>, ghost p: nat, ghost e: nat)
    returns (ok: bool, mainVal: int, mainVals: int, incidentalValNum: nat, incidentalVals: int)
    requires MainScan(s, p, mainValue, mainCount, kickers, kickerSize)
    requires FullRun(s, p, e) && value == s[p] && sameNum == e - p
    requires kickerSize == 1 || kickerSize == 2
    ensures incidentalVals == 1 || incidentalVals == 2
    ensures ok ==> MainScan(s, e, mainVal, mainVals, incidentalValNum, incidentalVals)
    ensures !ok ==> NoHandOf(multiset(s), MainKinds)
  {
    hide MainScan, NoHandOf, Sorted;
    ok := true;
    mainVal, mainVals, incidentalValNum, incidentalVals := mainValue, mainCount, kickers, kickerSize;
    if sameNum == 4 || sameNum == 3 {
      if mainVal != 0 {
        NoSecondMain(s, p, e, mainVal, mainVals, incidentalValNum, incidentalVals);
        ok := false;
        return;
      }
      MainStartsAtZero(s, p, mainVals, incidentalValNum, incidentalVals);
      ScanMain(s, p, e, incidentalValNum, incidentalVals);
      mainVal := value;
      mainVals := sameNum;
    } else {
      if sameNum > 4 {
        NoMainWithFive(s, p, e);
        ok := false;
        return;
      }
      if sameNum != incidentalVals && incidentalValNum != 0 {
        NoMainWithMixedKickers(s, p, e, mainVal, mainVals, incidentalValNum, incidentalVals);
        ok := false;
        return;
      }
      ScanBeside(s, p, e, mainVal, mainVals, incidentalValNum, incidentalVals);
      incidentalVals := sameNum;
      incidentalValNum := incidentalValNum + 1;
    }
  }

  lemma MainStartsAtZero(s: seq<int>, p: nat, mains: int, num: nat, q: int)
    requires MainScan(s, p, 0, mains, num, q)
    ensures mains == 0
  {
  }

  lemma SomeBeside(s: seq<int>, p: nat, main: int, mains: int, num: nat, q: int)
    requires MainScan(s, p, main, mains, num, q) && q != 1
    ensures num > 0
  {
  }

  /** The counting loop of the search for three or four of a kind. */
  method CountMainRuns(cards: array<int>, size: nat)
    returns (ok: bool, mainVal: int, mainVals: int, incidentalValNum: nat, incidentalVals: int)
    requires size <= cards.Length && size < 20 && Sorted(cards[..size]) && NoZero(cards[..size])
    ensures incidentalVals == 1 || incidentalVals == 2
    ensures ok ==> MainScanned(cards[..size], mainVal, mainVals, incidentalValNum, incidentalVals)
    ensures !ok ==> NoHandOf(multiset(cards[..size]), MainKinds)
  {
    hide MainScan, NoHandOf, Run, FullRun, Sorted, NoZero;
    mainVal, mainVals, incidentalValNum, incidentalVals, ok := 0, 0, 0, 1, true;
    var sameNum := 1;
    ghost var s, p := cards[..size], 0;
    MainScanStart(s);
    if size > 0 { RunStarts(s); }
    var i := 1;
    while i < size
      invariant 1 <= i && (i <= size || size == 0)
      invariant incidentalVals == 1 || incidentalVals == 2
      invariant ok && (i == 1 ==> p == 0 && mainVals == 0) && (size <= 1 ==> i == 1)
      invariant MainScan(s, p, mainVal, mainVals, incidentalValNum, incidentalVals)
      invariant i < size ==> Run(s, p, i) && p < i && sameNum == i - p && s[p] == s[i - 1]
      invariant i == size && 1 < size ==> p == size
    {
      if cards[i] == cards[i - 1] {
        RunGrows(s, p, i);
        sameNum := sameNum + 1;
        if i < size - 1 {
          i := i + 1;
          continue;
        }
      } else {
        RunEnds(s, p, i);
      }
      ok, mainVal, mainVals, incidentalValNum, incidentalVals :=
        FileMainRun(mainVal, mainVals, incidentalValNum, incidentalVals, cards[i - 1], sameNum, s, p, p + sameNum);
      if !ok {
        return;
      }
      p := p + sameNum;
      sameNum := 1;
      if i == size - 1 && cards[i] != cards[i - 1] {
        if incidentalVals != 1 {
          SomeBeside(s, p, mainVal, mainVals, incidentalValNum, incidentalVals);
          NoMainWithMixedKickers(s, p, size, mainVal, mainVals, incidentalValNum, incidentalVals);
          ok := false;
          return;
        }
        ScanBeside(s, p, size, mainVal, mainVals, incidentalValNum, incidentalVals);
        incidentalValNum := incidentalValNum + 1;
        p := size;
      }
      i := i + 1;
    }
  }

  /** Three or four of a kind with its kickers. */
  method IsThreeOrFour(cards: array<int>, size: nat, pi: PokerInfo) returns (b: bool)
    requires size <= cards.Length && size < 20 && size != 3
    requires Sorted(cards[..size]) && NoZero(cards[..size])
    requires pi.kind == Err
    modifies pi
    ensures b ==> pi.kind in MainKinds && Matches(multiset(cards[..size]), pi.View())
    ensures !b ==> pi.kind == Err && NoHandOf(multiset(cards[..size]), MainKinds)
  {
    hide MainScanned, Matches, NoHandOf;
    var ok, mainVal, mainVals, incidentalValNum, incidentalVals := CountMainRuns(cards, size);
    if !ok {
      return false;
    }
    ghost var s := cards[..size];
    if MainKind(mainVals, incidentalValNum, incidentalVals) != Err {
      MainScanMatches(s, mainVal, mainVals, incidentalValNum, incidentalVals);
    } else {
      NoMainInScan(s, mainVal, mainVals, incidentalValNum, incidentalVals);
    }
    if mainVals == 3 {
      if incidentalValNum == 0 {
        pi.kind := Three;
      } else if incidentalValNum == 1 {
        if incidentalVals == 1 {
          pi.kind := ThreeOne;
        }
        if incidentalVals == 2 {
          pi.kind := ThreeDouble;
        }
      }
    } else if mainVals == 4 {
      if incidentalValNum == 0 {
        pi.kind := Bomb;
      } else if incidentalValNum == 1 {
        if incidentalVals == 2 {
          pi.kind := FourTwoSingle;
        }
      } else if incidentalValNum == 2 {
        if incidentalVals == 1 {
          pi.kind := FourTwoSingle;
        } else if incidentalVals == 2 {
          pi.kind := FourTwoDouble;
        }
      }
    }
    if pi.kind != Err {
      pi.value := mainVal;
      pi.length := size;
    }
    return pi.kind != Err;
  }

  // ------------------------------------------------------------------ the parser

  lemma EqualCards(s: seq<int>)
    requires 1 <= |s| <= 3 && forall i :: 0 <= i < |s| ==> s[i] == s[0]
    requires |s| == 3 ==> s[0] < SMALL_JOKER
    ensures Matches(multiset(s), Hand(if |s| == 1 then Single else if |s| == 2 then Double else Three, s[0], |s|))
  {
    Constant(s, s[0]);
  }

  lemma BothJokers(s: seq<int>)
    requires |s| == 2 && s[0] == SMALL_JOKER && s[1] == BIG_JOKER
    ensures Matches(multiset(s), Hand(DoubleJoker, s[0], 2))
  {
    assert s == [SMALL_JOKER, BIG_JOKER];
  }

  lemma NoSmallHand(m: multiset<int>, s: seq<int>, h: Hand)
    requires m == multiset(s) && Sorted(s) && 2 <= |s| <= 3 && Matches(m, h)
    ensures |s| == 2 ==> s[0] == s[1] || (s[0] == SMALL_JOKER && s[1] == BIG_JOKER)
    ensures |s| == 3 ==> s[0] == s[1] == s[2] && s[0] < SMALL_JOKER
  {
    assert s == if |s| == 2 then [s[0], s[1]] else [s[0], s[1], s[2]];
    assert s[0] in m && s[1] in m && s[|s| - 1] in m;
    if h.kind == DoubleJoker { assert m[SMALL_JOKER] == 1 && m[BIG_JOKER] == 1; }
  }

  lemma NoLargeHand(m: multiset<int>, h: Hand)
    requires |m| == 0 || 4 <= |m|
    requires NoHandOf(m, {SingleChain})
    requires |m| % 2 == 0 ==> NoHandOf(m, {DoubleChain})
    requires |m| in {4, 5, 7} || NoHandOf(m, ThreeChains)
    requires |m| in {4, 5, 6, 8} ==> NoHandOf(m, MainKinds)
    ensures !Matches(m, h)
  {
  }

  /** What `Parse` reports about the cards of `m`: the one hand they form, or none. */
  ghost predicate Classifies(m: multiset<int>, found: Hand)
  {
    && (found.kind != Err ==> Matches(m, found))
    && (found.kind == Err ==> forall h: Hand :: !Matches(m, h))
  }

  lemma NoZeroCards(s: seq<int>, t: seq<int>)
    requires multiset(s) == multiset(t) && NoZero(s)
    ensures NoZero(t)
  {
    assert 0 !in multiset(t);
  }

  /** Sorts the cards and says which hand they form. */
  method Parse(cards: array<int>, size: int, pi: PokerInfo)
    requires size <= cards.Length && (0 <= size ==> NoZero(cards[..size]))
    modifies cards, pi
    ensures size < 0 ==> pi.View() == Hand(Err, ZERO_VALUE, 0) && cards[..] == old(cards[..])
    ensures 0 <= size ==> Classifies(multiset(old(cards[..size])), pi.View())
    ensures 0 <= size ==> multiset(cards[..size]) == multiset(old(cards[..size]))
    ensures 0 <= size ==> cards[size..] == old(cards[size..])
    ensures 0 <= size < 20 ==> Sorted(cards[..size])
  {
    pi.Set(Err, ZERO_VALUE, 0);
    if size < 0 || size >= 20 {
      return;
    }
    SortCards(cards, size);
    NoZeroCards(old(cards[..size]), cards[..size]);
    ClassifySorted(cards, size, pi);
  }

  /** The tests of `Parse`, in the order each number of cards calls for. */
  method ClassifySorted(cards: array<int>, size: nat, pi: PokerInfo)
    requires size <= cards.Length && size < 20 && Sorted(cards[..size]) && NoZero(cards[..size])
    requires pi.kind == Err
    modifies pi
    ensures Classifies(multiset(cards[..size]), pi.View())
  {
    hide Matches, NoHandOf;
    ghost var s, m := cards[..size], multiset(cards[..size]);
    if 2 <= size <= 3 {
      forall h: Hand | Matches(m, h) { NoSmallHand(m, s, h); }
    }
    if size == 1 {
      EqualCards(s);
      pi.Set(Single, cards[0], 1);
      return;
    } else if size == 2 {
      if cards[0] == cards[1] {
        EqualCards(s);
        pi.Set(Double, cards[0], 2);
      } else if cards[0] == SMALL_JOKER && cards[1] == BIG_JOKER {
        BothJokers(s);
        pi.Set(DoubleJoker, cards[0], 2);
      }
      return;
    } else if size == 3 {
      if cards[0] == cards[1] && cards[1] == cards[2] && cards[0] < SMALL_JOKER {
        EqualCards(s);
        pi.Set(Three, cards[0], 3);
      }
      return;
    }
    var found := false;
    if size == 4 {
      found := IsThreeOrFour(cards, size, pi);
      if found { return; }
    } else if size == 5 {
      found := IsSingleChain(cards, size, pi);
      if found { return; }
      found := IsThreeOrFour(cards, size, pi);
      if found { return; }
    } else if size == 6 {
      found := IsSingleChain(cards, size, pi);
      if found { return; }
      found := IsDoubleChain(cards, size, pi);
      if found { return; }
      found := IsThreeChain(cards, size, pi);
      if found { return; }
      found := IsThreeOrFour(cards, size, pi);
      if found { return; }
    } else if size == 7 {
      found := IsSingleChain(cards, size, pi);
      if found { return; }
    } else if size == 8 {
      found := IsSingleChain(cards, size, pi);
      if found { return; }
      found := IsDoubleChain(cards, size, pi);
      if found { return; }
      found := IsThreeOrFour(cards, size, pi);
      if found { return; }
      found := IsThreeChain(cards, size, pi);
      if found { return; }
    } else {
      found := IsThreeChain(cards, size, pi);
      if found { return; }
      found := IsSingleChain(cards, size, pi);
      if found { return; }
      if size % 2 == 0 {
        found := IsDoubleChain(cards, size, pi);
        if found { return; }
      }
    }
    ShortHands(m);
    forall h: Hand ensures !Matches(m, h) { NoLargeHand(m, h); }
  }

  lemma ShortHands(m: multiset<int>)
    ensures |m| < 5 ==> NoHandOf(m, {SingleChain})
    ensures |m| < 6 ==> NoHandOf(m, {DoubleChain})
  {
  }

  /** The hand `Parse` reports depends on the cards alone, not on their order. */
  lemma ClassifiesOnce(m: multiset<int>, g: Hand, h: Hand)
    requires Classifies(m, g) && Classifies(m, h)
    ensures g.kind == h.kind && (g.kind != Err ==> g == h)
  {
    if g.kind != Err && h.kind != Err { PatternsExclusive(m, g, h); }
  }
}
