/**
 * The older rule fragment kept by the web frontend: steps per roll and
 * damage per roll. Unlike the backend, super mode is not capped by the
 * condition, and damage depends on the dice value rather than on the mode.
 */
module FrontendEngine {
  import RacingEngine

  /** The frontend's mode type admits only these two values. */
  datatype Mode = Normal | Super

  /** Condition a racer starts with in the frontend. */
  const InitialCondition: int := 6

  /**
   * Steps a roll advances: 2 on an even dice and 1 on an odd one in normal
   * mode, the dice value itself in super mode. JavaScript's `dice % 2 === 0`
   * and Dafny's `dice % 2 == 0` agree on every integer.
   */
  function AdvanceSteps(mode: Mode, dice: int): (steps: int)
    ensures mode.Normal? ==> (steps == 1 || steps == 2)
    ensures mode.Normal? ==> (steps == 2 <==> dice % 2 == 0)
    ensures mode.Super? ==> steps == dice
  {
    if mode.Normal? then (if dice % 2 == 0 then 2 else 1) else dice
  }

  /** Condition after a roll: one point is lost exactly when the dice shows 1. */
  function ApplyDamage(condition: int, dice: int): (c: int)
    ensures dice == 1 ==> c == condition - 1
    ensures dice != 1 ==> c == condition
    ensures c <= condition
  {
    if dice == 1 then condition - 1 else condition
  }

  /** The mode name the backend engine uses for a frontend mode. */
  function BackendMode(mode: Mode): (name: string)
    ensures name == RacingEngine.NormalMode <==> mode.Normal?
    ensures name == RacingEngine.SuperMode <==> mode.Super?
  {
    RacingEngine.ModesDistinct();
    match mode
    case Normal => RacingEngine.NormalMode
    case Super => RacingEngine.SuperMode
  }

  /** Both engines start a racer with the same condition. */
  lemma InitialConditionsAgree()
    ensures InitialCondition == RacingEngine.InitialCondition == 6
  {
  }

  /** In normal mode both rule sets give the same steps, whatever the condition. */
  lemma NormalStepsAgree(dice: int, condition: int)
    ensures RacingEngine.AdvanceSteps(RacingEngine.NormalMode, dice, condition) == AdvanceSteps(Normal, dice)
  {
  }

  /**
   * In super mode the two rule sets agree exactly when the condition covers
   * the dice; below that the backend's capped value is strictly smaller.
   */
  lemma SuperStepsCompare(dice: int, condition: int)
    requires 1 <= dice <= 6
    ensures condition >= dice ==> RacingEngine.AdvanceSteps(RacingEngine.SuperMode, dice, condition) == AdvanceSteps(Super, dice)
    ensures condition < dice ==> RacingEngine.AdvanceSteps(RacingEngine.SuperMode, dice, condition) < AdvanceSteps(Super, dice)
  {
  }

  /**
   * The backend's condition rule (one point per super roll) and the
   * frontend's damage rule (one point per dice showing 1) give the same
   * condition exactly when "the mode is super" and "the dice shows 1" agree.
   */
  lemma ConditionRulesAgree(position: int, condition: int, mode: Mode, dice: int)
    ensures RacingEngine.Roll(position, condition, BackendMode(mode), dice).newCondition == ApplyDamage(condition, dice)
            <==> (mode.Super? == (dice == 1))
  {
  }
}
