/** The `match` control flow construct: the value of a coin, `plus_one` on
    an `Option<i32>`, and a dice roll dispatched with a catch-all arm. */
module MatchControlFlow {
  import opened Prim

  /** `enum UsState`, cut down to the two states the program lists. */
  datatype UsState = Alabama | Alaska

  /** `enum Coin`: a quarter carries the state on its back. */
  datatype Coin = Penny | Nickel | Dime | Quarter(state: UsState)

  /** `value_in_cents(coin) -> u8`: the worth of each coin in cents. The
      `println!` in the penny and quarter arms is output only. */
  function ValueInCents(coin: Coin): (cents: u8)
    ensures cents in {1, 5, 10, 25}
    ensures cents == 25 <==> coin.Quarter?
  {
    match coin
    case Penny => 1
    case Nickel => 5
    case Dime => 10
    case Quarter(state) => 25
  }

  /** Two coins are worth the same exactly when they are the same kind of
      coin; the state of a quarter does not change its value. */
  lemma ValueIdentifiesKind(a: Coin, b: Coin)
    ensures ValueInCents(a) == ValueInCents(b) <==> a == b || (a.Quarter? && b.Quarter?)
  {
  }

  /** `plus_one(x: Option<i32>)`: `None` stays `None`, and `Some(i)` becomes
      `Some(i + 1)`; the `i32` addition panics on overflow, so `i` must be
      below `i32::MAX`. */
  function PlusOne(x: Option<i32>): (r: Option<i32>)
    requires x.Some? ==> x.value < I32_MAX
    ensures r.Some? <==> x.Some?
    ensures r.Some? ==> r.value == x.value + 1
  {
    match x
    case None => None
    case Some(i) => Some(i + 1)
  }

  /** What the program does after a roll of the dice. */
  datatype Action = AddFancyHat | RemoveFancyHat | MovePlayer(spaces: u8) | RollAgain

  /** `match dice_roll { 3 => add_fancy_hat(), 7 => remove_fancy_hat(),
      other => move_player(other) }`: the catch-all arm binds the roll. */
  function DiceWithBinding(roll: u8): (a: Action)
    ensures a == AddFancyHat <==> roll == 3
    ensures a == RemoveFancyHat <==> roll == 7
    ensures a.MovePlayer? <==> roll != 3 && roll != 7
    ensures a.MovePlayer? ==> a.spaces == roll
    ensures !a.RollAgain?
  {
    match roll
    case 3 => AddFancyHat
    case 7 => RemoveFancyHat
    case other => MovePlayer(other)
  }

  /** The same match with `_ => roll_again()`, whose catch-all arm does not
      bind the roll. Nothing ties this roll to `u8`, so it is an `i32`. */
  function DiceWithWildcard(roll: i32): (a: Action)
    ensures a == AddFancyHat <==> roll == 3
    ensures a == RemoveFancyHat <==> roll == 7
    ensures a == RollAgain <==> roll != 3 && roll != 7
  {
    match roll
    case 3 => AddFancyHat
    case 7 => RemoveFancyHat
    case _ => RollAgain
  }

  /** The two forms differ only in their catch-all arm. */
  lemma DiceFormsAgree(roll: u8)
    ensures DiceWithBinding(roll).MovePlayer? ==> DiceWithWildcard(roll) == RollAgain
    ensures !DiceWithBinding(roll).MovePlayer? ==> DiceWithWildcard(roll) == DiceWithBinding(roll)
  {
  }

  /** `main`: `plus_one(Some(5))` is `Some(6)` and `plus_one(None)` is
      `None`; a roll of 9 moves the player 9 spaces, and a roll of 10 with
      the wildcard arm rolls again. */
  method MatchMain() returns (five: Option<i32>, six: Option<i32>, none: Option<i32>,
                              firstRoll: Action, secondRoll: Action)
    ensures five == Some(5) && six == Some(6) && none == None
    ensures firstRoll == MovePlayer(9)
    ensures secondRoll == RollAgain
  {
    five := Some(5);
    six := PlusOne(five);
    none := PlusOne(None);
    var diceRoll: u8 := 9;
    firstRoll := DiceWithBinding(diceRoll);
    var secondDiceRoll: i32 := 10;
    secondRoll := DiceWithWildcard(secondDiceRoll);
  }
}
