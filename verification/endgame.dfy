/** Win and lose evaluation (EvaluateGameEndConditions and
    EvaluateGameEndCondition, game/game.go:136-164). */
module EndGame {
  import opened Failures
  import opened Definitions
  import opened Store

  /** The quantity a condition compares: the turn counter for the name
      "turn", otherwise the named value, which must exist. */
  function Observed(turn: nat, cond: GameEndCondition, values: ValueMap): (r: Result<real>)
    ensures cond.name == "turn" ==> r == Ok(turn as real)
    ensures cond.name != "turn" ==> (r.Ok? <==> cond.name in values)
    ensures cond.name != "turn" && r.Ok? ==> r.value == values[cond.name]
    ensures r.Err? ==> r.error == UnknownValue(cond.name)
  {
    if cond.name == "turn" then Ok(turn as real)
    else if cond.name in values then Ok(values[cond.name])
    else Err(UnknownValue(cond.name))
  }

  /** The threshold test: "+" fires at or above the threshold, "-" at or
      below it, and any other sign never fires. */
  predicate Reached(sign: string, value: real, threshold: real) {
    (sign == "+" && value >= threshold) || (sign == "-" && value <= threshold)
  }

  /** One condition; a nil condition pointer is dereferenced in Go and fails. */
  function EvaluateGameEndCondition(turn: nat, cond: Option<GameEndCondition>, values: ValueMap)
    : (r: Result<bool>)
    ensures cond.None? ==> r == Err(MissingEndCondition)
    ensures cond.Some? ==> (r.Err? <==> Observed(turn, cond.value, values).Err?)
    ensures r.Ok? ==> cond.Some?
    ensures r.Ok? ==>
      (r.value <==> Reached(cond.value.sign, Observed(turn, cond.value, values).value, cond.value.value))
  {
    if cond.None? then Err(MissingEndCondition)
    else
      var c := cond.value;
      var value :- Observed(turn, c, values);
      if c.sign == "+" && value >= c.value then Ok(true)
      else if c.sign == "-" && value <= c.value then Ok(true)
      else Ok(false)
  }

  /** Win is tested first; lose is tested only when win does not hold. */
  function EvaluateGameEndConditions(turn: nat, scenario: Scenario, values: ValueMap): (r: Result<nat>)
    ensures r.Ok? ==> r.value in {NotOver, GameWon, GameLost}
    ensures r == Ok(GameWon) <==> EvaluateGameEndCondition(turn, scenario.winCondition, values) == Ok(true)
    ensures r == Ok(GameLost) <==>
      && EvaluateGameEndCondition(turn, scenario.winCondition, values) == Ok(false)
      && EvaluateGameEndCondition(turn, scenario.loseCondition, values) == Ok(true)
    ensures r == Ok(NotOver) <==>
      && EvaluateGameEndCondition(turn, scenario.winCondition, values) == Ok(false)
      && EvaluateGameEndCondition(turn, scenario.loseCondition, values) == Ok(false)
  {
    var won :- EvaluateGameEndCondition(turn, scenario.winCondition, values);
    if won then Ok(GameWon)
    else
      var lost :- EvaluateGameEndCondition(turn, scenario.loseCondition, values);
      if lost then Ok(GameLost) else Ok(NotOver)
  }
}

module EndGameLemmas {
  import opened Failures
  import opened Definitions
  import opened Store
  import opened EndGame

  /** Both thresholds are inclusive: a value exactly at the threshold fires
      under "+" and under "-". */
  lemma ThresholdInclusive(turn: nat, name: string, threshold: real, values: ValueMap)
    requires name == "turn" || name in values
    requires (if name == "turn" then turn as real else values[name]) == threshold
    ensures EvaluateGameEndCondition(turn, Some(GameEndCondition(name, "+", threshold)), values) == Ok(true)
    ensures EvaluateGameEndCondition(turn, Some(GameEndCondition(name, "-", threshold)), values) == Ok(true)
  {
  }

  /** A sign other than "+" and "-" never ends the game. */
  lemma OtherSignNeverFires(turn: nat, cond: GameEndCondition, values: ValueMap)
    requires cond.sign != "+" && cond.sign != "-"
    requires cond.name == "turn" || cond.name in values
    ensures EvaluateGameEndCondition(turn, Some(cond), values) == Ok(false)
  {
  }

  /** When both conditions hold the game is won, not lost. */
  lemma WinBeatsLose(turn: nat, scenario: Scenario, values: ValueMap)
    requires EvaluateGameEndCondition(turn, scenario.winCondition, values) == Ok(true)
    ensures EvaluateGameEndConditions(turn, scenario, values) == Ok(GameWon)
  {
  }

  /** A "turn" condition with sign "+" keeps firing on every later turn. */
  lemma TurnConditionStays(turn: nat, later: nat, cond: GameEndCondition, values: ValueMap)
    requires cond.name == "turn" && cond.sign == "+" && turn <= later
    requires EvaluateGameEndCondition(turn, Some(cond), values) == Ok(true)
    ensures EvaluateGameEndCondition(later, Some(cond), values) == Ok(true)
  {
  }
}
