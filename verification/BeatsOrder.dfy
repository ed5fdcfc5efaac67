// The relation "beats" between hands.

module BeatsOrder {
  import opened PokerInfo
  import opened Patterns

  /** Whether the hand `g` may be played on the hand `h`. */
  function IsLarge(g: Hand, h: Hand): bool
  {
    if g.kind == h.kind then
      g.value > h.value && g.length == h.length
    else if h.kind == Zero && g.kind != Err then
      true
    else if g.kind == DoubleJoker then
      true
    else if g.kind == Bomb && h.kind != DoubleJoker then
      true
    else
      false
  }

  /** All values in `m` are card values. */
  ghost predicate CardValues(m: multiset<int>)
  {
    forall x :: x in m ==> LOWEST <= x <= BIG_JOKER
  }

  /** No hand on the table, or a hand `Parse` can report about cards. */
  ghost predicate OnTable(h: Hand)
  {
    h == ZeroHand || exists m: multiset<int> :: CardValues(m) && Matches(m, h)
  }

  /** A bound for the length of any ascent: every hand on the table has a strength up to this. */
  const STRONGEST := 31

  ghost function Strength(h: Hand): int
  {
    match h.kind
    case Zero => 0
    case DoubleJoker => STRONGEST
    case Bomb => 16 + h.value - LOWEST
    case _ => 1 + h.value - LOWEST
  }

  lemma StrengthBounds(h: Hand)
    requires OnTable(h)
    ensures h.kind != Err && (h.kind == Zero ==> h == ZeroHand)
    ensures h.kind == DoubleJoker ==> h == Hand(DoubleJoker, SMALL_JOKER, 2)
    ensures h.kind == Bomb ==> h.length == 4
    ensures 0 <= Strength(h) <= STRONGEST
    ensures h.kind != Zero ==> LOWEST <= h.value <= BIG_JOKER
  {
    if h != ZeroHand {
      var m: multiset<int> :| CardValues(m) && Matches(m, h);
      BodyCount(m, h, h.value);
      assert h.value in m;
    }
  }

  /** Beating is being stronger among hands that may meet. */
  lemma BeatsIsStronger(g: Hand, h: Hand)
    requires OnTable(g) && OnTable(h)
    ensures IsLarge(g, h) <==>
      && Strength(g) > Strength(h)
      && (h.kind == Zero || g.kind == Bomb || g.kind == DoubleJoker || (g.kind == h.kind && g.length == h.length))
  {
    StrengthBounds(g);
    StrengthBounds(h);
  }

  /** On the hands that reach the table, beating is a strict partial order. */
  lemma BeatsStrictOrder(f: Hand, g: Hand, h: Hand)
    requires OnTable(f) && OnTable(g) && OnTable(h)
    ensures !IsLarge(f, f)
    ensures IsLarge(f, g) ==> !IsLarge(g, f)
    ensures IsLarge(f, g) && IsLarge(g, h) ==> IsLarge(f, h)
  {
    StrengthBounds(f);
    StrengthBounds(g);
    StrengthBounds(h);
  }

  /** The two jokers beat every other hand and nothing beats them; of two bombs that of the higher value wins. */
  lemma JokersAndBombs(g: Hand, h: Hand)
    requires OnTable(g) && OnTable(h)
    ensures g.kind == DoubleJoker ==> (IsLarge(g, h) <==> h != g) && !IsLarge(h, g)
    ensures g.kind == Bomb && h.kind == Bomb ==>
      (IsLarge(g, h) <==> g.value > h.value) && (g == h <==> g.value == h.value)
  {
    StrengthBounds(g);
    StrengthBounds(h);
  }

  /** A hand list in which each hand beats the one before it. */
  ghost predicate Ascent(hs: seq<Hand>)
  {
    && (forall i :: 0 <= i < |hs| ==> OnTable(hs[i]))
    && (forall i :: 0 < i < |hs| ==> IsLarge(hs[i], hs[i - 1]))
  }

  lemma {:induction false} AscentGrows(hs: seq<Hand>)
    requires Ascent(hs) && hs != []
    ensures Strength(hs[|hs| - 1]) >= |hs| - 1
  {
    var last := |hs| - 1;
    StrengthBounds(hs[last]);
    if last > 0 {
      AscentGrows(hs[..last]);
      BeatsIsStronger(hs[last], hs[last - 1]);
    }
  }

  /** However long players go on beating one another, an ascent is bounded. */
  lemma AscentBounded(hs: seq<Hand>)
    requires Ascent(hs)
    ensures |hs| <= STRONGEST + 1
  {
    if hs != [] {
      AscentGrows(hs);
      StrengthBounds(hs[|hs| - 1]);
    }
  }
}
