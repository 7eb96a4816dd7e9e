/**
 * The backend rules engine of the dice racing game: one roll's effect on a
 * racer's track position and condition, and whether that roll wins or ends
 * the game. Everything here is pure and total.
 */
module RacingEngine {

  /** Length of the track: a racer at this position or beyond has won. */
  const TrackLength: int := 22
  /** Condition a racer starts with. */
  const InitialCondition: int := 6

  /** The two mode names the game knows; the engine accepts any string. */
  const NormalMode: string := "normal"
  const SuperMode: string := "super"

  /** The two mode names differ (their first letters do). */
  lemma ModesDistinct()
    ensures NormalMode != SuperMode
  {
    assert NormalMode[0] != SuperMode[0];
  }

  /**
   * Steps a roll advances. In normal mode an even dice gives 2 and an odd one
   * 1, whatever the condition; any other mode takes the dice value, capped by
   * the condition (never below 0).
   * Python's `dice % 2` and Dafny's agree for a positive divisor, negative
   * dice included.
   */
  function AdvanceSteps(mode: string, dice: int, condition: int): (steps: int)
    ensures mode == NormalMode ==> (steps == 1 || steps == 2)
    ensures mode == NormalMode ==> (steps == 2 <==> dice % 2 == 0)
    ensures mode != NormalMode ==> steps <= dice && steps <= if condition < 0 then 0 else condition
    ensures mode != NormalMode ==> steps == dice || steps == if condition < 0 then 0 else condition
    ensures mode != NormalMode && dice >= 0 ==> steps >= 0
  {
    if mode == NormalMode then
      (if dice % 2 == 0 then 2 else 1)
    else
      Min(dice, Max(0, condition))
  }

  function Min(a: int, b: int): int { if a <= b then a else b }
  function Max(a: int, b: int): int { if a >= b then a else b }

  /** The track is 22 steps long and a racer starts with 6 points of condition. */
  lemma EngineConstants()
    ensures TrackLength == 22 && InitialCondition == 6
  {
  }

  /** A racer at `position` has reached the finish line: 22 steps or more. */
  predicate HasWon(position: int): (w: bool)
    ensures w <==> position >= 22
  {
    position >= TrackLength
  }

  /** A racer with `condition` left has run out of condition: none, or less. */
  predicate IsGameOver(condition: int): (over: bool)
    ensures over <==> condition <= 0
  {
    condition <= 0
  }

  /** The five values one roll produces. */
  datatype RollResult = RollResult(steps: int, newPosition: int, newCondition: int, won: bool, gameOver: bool)

  /**
   * One roll. Super mode costs one point of condition; reaching the finish
   * line wins even when the same roll exhausts the condition, so a roll never
   * both wins and ends the game.
   */
  function Roll(position: int, condition: int, mode: string, dice: int): (r: RollResult)
    ensures r.steps == AdvanceSteps(mode, dice, condition)
    ensures r.newPosition == position + r.steps
    ensures r.newCondition == if mode == SuperMode then condition - 1 else condition
    ensures r.won <==> r.newPosition >= TrackLength
    ensures r.gameOver <==> !r.won && r.newCondition <= 0
    ensures !(r.won && r.gameOver)
    ensures 1 <= dice ==> r.newPosition >= position
    ensures r.newCondition == condition - 1 || r.newCondition == condition
  {
    var steps := AdvanceSteps(mode, dice, condition);
    var newPosition := position + steps;
    var newCondition := if mode == SuperMode then condition - 1 else condition;
    var won := HasWon(newPosition);
    var gameOver := !won && IsGameOver(newCondition);
    RollResult(steps, newPosition, newCondition, won, gameOver)
  }

  /** Winning takes priority: a roll that reaches the finish line is never game over. */
  lemma WinTakesPriority(position: int, condition: int, mode: string, dice: int)
    requires position + AdvanceSteps(mode, dice, condition) >= TrackLength
    ensures Roll(position, condition, mode, dice).won
    ensures !Roll(position, condition, mode, dice).gameOver
  {
  }

  /**
   * From the starting line with full condition, a normal roll of a real dice
   * moves 1 or 2 steps, keeps the condition, and neither wins nor ends the game.
   */
  lemma FirstNormalRoll(dice: int)
    requires 1 <= dice <= 6
    ensures var r := Roll(0, InitialCondition, NormalMode, dice);
      && (r.steps == 1 || r.steps == 2)
      && r.newPosition == r.steps
      && r.newCondition == InitialCondition
      && !r.won && !r.gameOver
  {
  }

  /**
   * A racer that has neither won nor run out of condition always moves
   * forward on a real dice, in either mode.
   */
  lemma RollMakesProgress(position: int, condition: int, mode: string, dice: int)
    requires 1 <= dice <= 6
    requires condition > 0
    ensures Roll(position, condition, mode, dice).steps >= 1
  {
  }
}
