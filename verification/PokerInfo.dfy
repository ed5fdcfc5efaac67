// Hand types and the hand record of the Dou Dizhu game.

module PokerInfo {

  // A character of the source is an integer code: '0' is below every card
  // value, the values run from 'A' (a three) to 'L' (an ace), 'M' is a two,
  // 'N' and 'O' are the two jokers.
  const ZERO_VALUE := 48
  const LOWEST := 65
  const TWO := 77
  const SMALL_JOKER := 78
  const BIG_JOKER := 79

  datatype Kind =
    | Err
    | Zero
    | Single
    | Double
    | Three
    | ThreeOne
    | ThreeDouble
    | FourTwoSingle
    | FourTwoDouble
    | SingleChain
    | DoubleChain
    | ThreeChain
    | ThreeChainSingle
    | ThreeChainDouble
    | Bomb
    | DoubleJoker

  /** What a `PokerInfo` record says: its kind, its leading value and its number of cards. */
  datatype Hand = Hand(kind: Kind, value: int, length: int)

  const ZeroHand := Hand(Zero, ZERO_VALUE, 0)

  class PokerInfo {
    var kind: Kind
    var value: int
    var length: int

    constructor ()
      ensures View() == ZeroHand
    {
      new;
      SetZero();
    }

    function View(): Hand
      reads this
    {
      Hand(kind, value, length)
    }

    method Set(kind: Kind, value: int, length: int)
      modifies this
      ensures View() == Hand(kind, value, length)
    {
      this.kind, this.value, this.length := kind, value, length;
    }

    method SetZero()
      modifies this
      ensures View() == ZeroHand
    {
      kind, value, length := Zero, ZERO_VALUE, 0;
    }
  }
}
