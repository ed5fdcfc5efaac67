// What each hand type means, said of the multiset of card values alone, and
// the order in which hands beat one another.

module Patterns {
  import opened PokerInfo

  /** The values v .. v + k - 1 occur c times each, and every other value that occurs, q times. */
  ghost predicate Shape(m: multiset<int>, v: int, k: int, c: nat, q: nat)
  {
    && (forall x :: v <= x < v + k ==> m[x] == c)
    && (forall x :: x in m && !(v <= x < v + k) ==> m[x] == q)
  }

  /** The card values `m` form a hand of kind `h.kind` led by `h.value`. */
  ghost predicate Matches(m: multiset<int>, h: Hand)
  {
    && |m| == h.length < 20
    && var Hand(kind, v, n) := h;
       match kind
       case Err => false
       case Zero => false
       case Single => n == 1 && Shape(m, v, 1, 1, 0)
       case Double => n == 2 && Shape(m, v, 1, 2, 0)
       case DoubleJoker => n == 2 && v == SMALL_JOKER && Shape(m, v, 2, 1, 0)
       case Three => n == 3 && v < SMALL_JOKER && Shape(m, v, 1, 3, 0)
       case ThreeOne => n == 4 && Shape(m, v, 1, 3, 1)
       case ThreeDouble => n == 5 && Shape(m, v, 1, 3, 2)
       case Bomb => n == 4 && Shape(m, v, 1, 4, 0)
       case FourTwoSingle => n == 6 && m[v] == 4
       case FourTwoDouble => n == 8 && Shape(m, v, 1, 4, 2)
       case SingleChain => 5 <= n && v + n <= TWO && Shape(m, v, n, 1, 0)
       case DoubleChain => 6 <= n && n % 2 == 0 && v + n / 2 <= TWO && Shape(m, v, n / 2, 2, 0)
       case ThreeChain => 6 <= n && n % 3 == 0 && v + n / 3 <= TWO && Shape(m, v, n / 3, 3, 0)
       case ThreeChainSingle => 8 <= n && n % 4 == 0 && v + n / 4 <= TWO && Shape(m, v, n / 4, 3, 1)
       case ThreeChainDouble => 10 <= n && n % 5 == 0 && v + n / 5 <= TWO && Shape(m, v, n / 5, 3, 2)
  }

  /** The values in `m` form no hand of any of these kinds. */
  ghost predicate NoHandOf(m: multiset<int>, kinds: set<Kind>)
  {
    forall h: Hand :: h.kind in kinds ==> !Matches(m, h)
  }

  lemma CountsOfThree(m: multiset<int>, x: int, y: int, z: int)
    requires x != y && y != z && x != z
    ensures m[x] + m[y] + m[z] <= |m|
  {
    var part := multiset{}[x := m[x]][y := m[y]][z := m[z]];
    assert part <= m;
    assert m == part + (m - part);
  }

  /** The number of values in the body of a hand: 1, or the length of its chain. */
  ghost function Body(h: Hand): int
  {
    match h.kind
    case DoubleJoker => 2
    case SingleChain => h.length
    case DoubleChain => h.length / 2
    case ThreeChain => h.length / 3
    case ThreeChainSingle => h.length / 4
    case ThreeChainDouble => h.length / 5
    case _ => 1
  }

  /** The number of copies of each body value. */
  ghost function Copies(h: Hand): int
  {
    match h.kind
    case Single | DoubleJoker | SingleChain => 1
    case Double | DoubleChain => 2
    case Bomb | FourTwoSingle | FourTwoDouble => 4
    case _ => 3
  }

  lemma BodyCount(m: multiset<int>, h: Hand, x: int)
    requires Matches(m, h) && h.value <= x < h.value + Body(h)
    ensures m[x] == Copies(h)
  {
  }

  lemma OutsideBody(m: multiset<int>, h: Hand, x: int)
    requires Matches(m, h) && !(h.value <= x < h.value + Body(h))
    ensures m[x] < Copies(h)
  {
    if h.kind == FourTwoSingle {
      CountsOfThree(m, h.value, x, if h.value + 1 != x then h.value + 1 else h.value + 2);
    }
  }

  lemma BodyPositive(m: multiset<int>, h: Hand)
    requires Matches(m, h)
    ensures Body(h) >= 1 && h.length == |m|
  {
  }

  /** The values that occur most often are the body, so two hands of the same values have the same. */
  lemma SameBody(m: multiset<int>, g: Hand, h: Hand)
    requires Matches(m, g) && Matches(m, h)
    ensures g.value == h.value && Body(g) == Body(h) && Copies(g) == Copies(h)
  {
    hide Matches, Body, Copies;
    BodyPositive(m, g);
    BodyPositive(m, h);
    var gLast, hLast := g.value + Body(g) - 1, h.value + Body(h) - 1;
    CountAt(m, g, h, g.value);
    CountAt(m, g, h, gLast);
    CountAt(m, h, g, h.value);
    CountAt(m, h, g, hLast);
  }

  /** What a value of the body of `g` counts, seen from `h`. */
  lemma CountAt(m: multiset<int>, g: Hand, h: Hand, x: int)
    requires Matches(m, g) && Matches(m, h) && g.value <= x < g.value + Body(g)
    ensures if h.value <= x < h.value + Body(h) then Copies(g) == Copies(h) else Copies(g) < Copies(h)
  {
    hide Matches, Body, Copies;
    BodyCount(m, g, x);
    if h.value <= x < h.value + Body(h) { BodyCount(m, h, x); } else { OutsideBody(m, h, x); }
  }

  /** No multiset of values is two hands at once: the patterns exclude one another. */
  lemma PatternsExclusive(m: multiset<int>, g: Hand, h: Hand)
    requires Matches(m, g) && Matches(m, h)
    ensures g == h
  {
    hide Shape;
    SameBody(m, g, h);
  }
}
