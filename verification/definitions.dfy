/** The scenario definitions of game/game.go: value definitions with their
    influence edges, policy definitions, end conditions, and the derived weight
    map. Go reads a missing map key as the zero value; the `...Of` functions
    below make that explicit. */
module Definitions {
  import opened Failures

  /** Current numeric value of every named quantity. */
  type ValueMap = map<string, real>

  /** An optional clamp (Go `MaxMin`): `Set == false` is `Unset`. */
  datatype MaxMin = Unset | SetTo(value: real)

  /** One edge of the influence graph: the multiplier applied to the source
      value and the clamps applied to the product. */
  datatype Weight = Weight(multiplier: real, max: MaxMin, min: MaxMin)

  const ZeroWeight := Weight(0.0, Unset, Unset)

  /** An `affected_by` entry of a value definition. */
  datatype Influence = Influence(name: string, weight: real, min: MaxMin, max: MaxMin)

  datatype ValueDef = ValueDef(
    name: string,
    naturalChange: real,
    min: MaxMin,
    max: MaxMin,
    affectedBy: seq<Influence>)

  const ZeroValueDef := ValueDef("", 0.0, Unset, Unset, [])

  type ValueDefs = map<string, ValueDef>

  datatype Flat = Flat(valueName: string, amount: real)

  datatype WeightChange = WeightChange(dest: string, source: string, weight: real)

  datatype Restriction = Restriction(valueName: string, amount: real)

  datatype PolicyDef = PolicyDef(
    name: string,
    flat: seq<Flat>,
    weightChange: seq<WeightChange>,
    restrictions: seq<Restriction>)

  const ZeroPolicyDef := PolicyDef("", [], [], [])

  /** `mutualExclusive` is loaded but never read by the simulation. */
  datatype Policies = Policies(policies: map<string, PolicyDef>, mutualExclusive: seq<seq<string>>)

  datatype GameEndCondition = GameEndCondition(name: string, sign: string, value: real)

  /** The end conditions are Go pointers and may be nil. */
  datatype Scenario = Scenario(
    startValues: ValueMap,
    winCondition: Option<GameEndCondition>,
    loseCondition: Option<GameEndCondition>)

  datatype Data = Data(values: ValueDefs, policies: Policies, scenario: Scenario)

  /** For each value, the weight of the edge from each influencing value. */
  type WeightMap = map<string, map<string, Weight>>

  function ValueOf(m: ValueMap, name: string): real {
    if name in m then m[name] else 0.0
  }

  function PolicyOf(p: Policies, name: string): PolicyDef {
    if name in p.policies then p.policies[name] else ZeroPolicyDef
  }

  function ValueDefOf(defs: ValueDefs, name: string): ValueDef {
    if name in defs then defs[name] else ZeroValueDef
  }

  function EdgesOf(w: WeightMap, name: string): map<string, Weight> {
    if name in w then w[name] else map[]
  }
}
