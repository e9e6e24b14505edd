/** One turn of the value model (RecountValues and CalculateAddedValue,
    game/game.go:166-210): each value moves by the clamped contributions of
    the edges into it, the flat amounts of the active policies and its
    natural change, and is then clamped to its own bounds. */
module Recount {
  import opened Sums
  import opened Definitions

  /** The contribution of one edge, given the source value times the
      multiplier: capped at the edge's max and then raised to its min, so
      that when the two clamps cross the min wins. */
  function ClampEdge(product: real, w: Weight): (r: real)
    ensures w.min.SetTo? ==> r >= w.min.value
    ensures w.max.SetTo? && (w.min.Unset? || w.min.value <= w.max.value) ==> r <= w.max.value
    ensures (w.min.Unset? || product >= w.min.value) && (w.max.Unset? || product <= w.max.value) ==> r == product
    ensures w.min.SetTo? && w.max.SetTo? && w.min.value > w.max.value ==> r == w.min.value
    ensures w.max.SetTo? && product > w.max.value && (w.min.Unset? || w.min.value <= w.max.value) ==> r == w.max.value
    ensures w.min.SetTo? && product < w.min.value ==> r == w.min.value
  {
    var capped := if w.max.SetTo? && product > w.max.value then w.max.value else product;
    if w.min.SetTo? && capped < w.min.value then w.min.value else capped
  }

  /** A value clamped to its definition's bounds: raised to the min first and
      then capped at the max, so that when the two bounds cross the max wins. */
  function ClampValue(x: real, min: MaxMin, max: MaxMin): (r: real)
    ensures max.SetTo? ==> r <= max.value
    ensures min.SetTo? && (max.Unset? || min.value <= max.value) ==> r >= min.value
    ensures (min.Unset? || x >= min.value) && (max.Unset? || x <= max.value) ==> r == x
    ensures min.SetTo? && max.SetTo? && min.value > max.value ==> r == max.value
    ensures max.SetTo? && x > max.value ==> r == max.value
    ensures min.SetTo? && x < min.value && (max.Unset? || min.value <= max.value) ==> r == min.value
  {
    var raised := if min.SetTo? && x < min.value then min.value else x;
    if max.SetTo? && raised > max.value then max.value else raised
  }

  /** The contribution of the edge from `source`; a missing source value
      reads as 0. */
  function EdgeContribution(values: ValueMap, edges: map<string, Weight>, source: string): real {
    if source in edges then ClampEdge(ValueOf(values, source) * edges[source].multiplier, edges[source]) else 0.0
  }

  function EdgeTerm(values: ValueMap, edges: map<string, Weight>): string -> real {
    s => EdgeContribution(values, edges, s)
  }

  lemma EdgeTermAt(values: ValueMap, edges: map<string, Weight>, k: string)
    ensures EdgeTerm(values, edges)(k) == EdgeContribution(values, edges, k)
  {
  }

  /** Total flat amount a list of flat entries gives to `key`. */
  function FlatAmount(flat: seq<Flat>, key: string): (amount: real)
    ensures (forall f | f in flat :: f.valueName != key) ==> amount == 0.0
    decreases |flat|
  {
    if |flat| == 0 then 0.0
    else
      var f := flat[|flat| - 1];
      assert forall x | x in flat[..|flat| - 1] :: x in flat;
      FlatAmount(flat[..|flat| - 1], key) + (if f.valueName == key then f.amount else 0.0)
  }

  function FlatTerm(policies: Policies, key: string): string -> real {
    p => FlatAmount(PolicyOf(policies, p).flat, key)
  }

  /** Sum of the edge contributions into `key`. */
  ghost function EdgeSum(key: string, values: ValueMap, weights: WeightMap): real {
    Sum(EdgesOf(weights, key).Keys, EdgeTerm(values, EdgesOf(weights, key)))
  }

  /** Sum of the flat amounts the active policies give to `key`. */
  ghost function FlatSum(key: string, policies: Policies, active: set<string>): real {
    Sum(active, FlatTerm(policies, key))
  }

  /** What one turn adds to `key` before its natural change. */
  ghost function AddedValue(key: string, values: ValueMap, weights: WeightMap, policies: Policies,
                            active: set<string>): real
  {
    EdgeSum(key, values, weights) + FlatSum(key, policies, active)
  }

  /** What one turn adds to every value. */
  ghost function AddedValues(values: ValueMap, weights: WeightMap, policies: Policies, active: set<string>)
    : (added: map<string, real>)
    ensures added.Keys == values.Keys
  {
    map k | k in values :: AddedValue(k, values, weights, policies, active)
  }

  /** The new value of `key` given what the turn adds to it; a value without
      a definition has no natural change and no bounds. */
  function NewValue(key: string, current: real, added: real, valueData: ValueDefs): real {
    var def := ValueDefOf(valueData, key);
    ClampValue(current + added + def.naturalChange, def.min, def.max)
  }

  /** All values after one turn, given what the turn adds to each. */
  function RecountWith(values: ValueMap, valueData: ValueDefs, added: map<string, real>): (r: ValueMap)
    requires values.Keys <= added.Keys
    ensures r.Keys == values.Keys
  {
    map k | k in values :: NewValue(k, values[k], added[k], valueData)
  }

  /** All values after one turn; every value is computed from the values of
      the previous turn. */
  ghost function Recounted(values: ValueMap, valueData: ValueDefs, weights: WeightMap, policies: Policies,
                           active: set<string>): (r: ValueMap)
    ensures r.Keys == values.Keys
  {
    RecountWith(values, valueData, AddedValues(values, weights, policies, active))
  }

  /** The first loop of CalculateAddedValue: the edges into a value, in any order. */
  method SumEdges(values: ValueMap, edges: map<string, Weight>) returns (adjustment: real)
    ensures adjustment == Sum(edges.Keys, EdgeTerm(values, edges))
  {
    ghost var f := EdgeTerm(values, edges);
    adjustment := 0.0;
    var todo := edges.Keys;
    while todo != {}
      invariant todo <= edges.Keys
      invariant adjustment + Sum(todo, f) == Sum(edges.Keys, f)
      decreases todo
    {
      var k :| k in todo;
      var weightAdjustment := EdgeContribution(values, edges, k);
      EdgeTermAt(values, edges, k);
      SumStep(todo, f, k, adjustment, weightAdjustment, Sum(edges.Keys, f));
      adjustment := adjustment + weightAdjustment;
      todo := todo - {k};
    }
  }

  /** The inner loop over one policy's flat entries. */
  method SumFlat(flat: seq<Flat>, key: string) returns (amount: real)
    ensures amount == FlatAmount(flat, key)
  {
    amount := 0.0;
    var i := 0;
    while i < |flat|
      invariant 0 <= i <= |flat|
      invariant amount == FlatAmount(flat[..i], key)
    {
      if flat[i].valueName == key {
        amount := amount + flat[i].amount;
      }
      assert flat[..i + 1][..i] == flat[..i];
      i := i + 1;
    }
    assert flat[..|flat|] == flat;
  }

  /** The second loop of CalculateAddedValue: the active policies, in any order. */
  method SumPolicies(key: string, policies: Policies, active: set<string>) returns (adjustment: real)
    ensures adjustment == FlatSum(key, policies, active)
  {
    ghost var g := FlatTerm(policies, key);
    adjustment := 0.0;
    var pending := active;
    while pending != {}
      invariant pending <= active
      invariant adjustment + Sum(pending, g) == Sum(active, g)
      decreases pending
    {
      var p :| p in pending;
      var amount := SumFlat(PolicyOf(policies, p).flat, key);
      SumStep(pending, g, p, adjustment, amount, Sum(active, g));
      adjustment := adjustment + amount;
      pending := pending - {p};
    }
  }

  /** CalculateAddedValue: the edge loop, then the policy loop. */
  method CalculateAddedValue(key: string, values: ValueMap, weights: WeightMap, policies: Policies,
                             active: set<string>) returns (adjustment: real)
    ensures adjustment == AddedValue(key, values, weights, policies, active)
  {
    var edgePart := SumEdges(values, EdgesOf(weights, key));
    var flatPart := SumPolicies(key, policies, active);
    adjustment := edgePart + flatPart;
  }

  lemma RecountWithExt(values: ValueMap, valueData: ValueDefs, added: map<string, real>, m: ValueMap)
    requires values.Keys <= added.Keys
    requires m.Keys == values.Keys
    requires forall k | k in m :: m[k] == NewValue(k, values[k], added[k], valueData)
    ensures m == RecountWith(values, valueData, added)
  {
  }

  lemma AddedValuesAt(values: ValueMap, weights: WeightMap, policies: Policies, active: set<string>, k: string)
    requires k in values
    ensures AddedValues(values, weights, policies, active)[k] == AddedValue(k, values, weights, policies, active)
  {
  }

  /** The body of the RecountValues loop for the value `key`. */
  method RecountOne(key: string, current: real, values: ValueMap, valueData: ValueDefs, weights: WeightMap,
                    policies: Policies, active: set<string>) returns (newValue: real)
    ensures newValue == NewValue(key, current, AddedValue(key, values, weights, policies, active), valueData)
  {
    var def := ValueDefOf(valueData, key);
    var added := CalculateAddedValue(key, values, weights, policies, active);
    newValue := current + added;
    newValue := newValue + def.naturalChange;
    newValue := ClampValue(newValue, def.min, def.max);
  }

  /** One iteration of the RecountValues loop keeps its invariant. */
  lemma RecountStep(values: ValueMap, valueData: ValueDefs, addedAll: map<string, real>,
                    newValues: ValueMap, todo: set<string>, k: string, newValue: real)
    requires values.Keys <= addedAll.Keys && todo <= values.Keys && k in todo
    requires newValues.Keys == values.Keys - todo
    requires forall j | j in newValues :: newValues[j] == NewValue(j, values[j], addedAll[j], valueData)
    requires newValue == NewValue(k, values[k], addedAll[k], valueData)
    ensures newValues[k := newValue].Keys == values.Keys - (todo - {k})
    ensures forall j | j in newValues[k := newValue] ::
      newValues[k := newValue][j] == NewValue(j, values[j], addedAll[j], valueData)
  {
  }

  /** The Go loop of RecountValues, visiting the values in any order;
      `addedAll` names what CalculateAddedValue returns for each value. */
  method RecountLoop(values: ValueMap, valueData: ValueDefs, weights: WeightMap, policies: Policies,
                     active: set<string>, ghost addedAll: map<string, real>) returns (newValues: ValueMap)
    requires values.Keys <= addedAll.Keys
    requires forall k {:trigger AddedValue(k, values, weights, policies, active)} | k in values ::
      addedAll[k] == AddedValue(k, values, weights, policies, active)
    ensures newValues == RecountWith(values, valueData, addedAll)
  {
    newValues := map[];
    var todo := values.Keys;
    while todo != {}
      invariant todo <= values.Keys
      invariant newValues.Keys == values.Keys - todo
      invariant forall k | k in newValues :: newValues[k] == NewValue(k, values[k], addedAll[k], valueData)
      decreases todo
    {
      var k :| k in todo;
      var newValue := RecountOne(k, values[k], values, valueData, weights, policies, active);
      RecountStep(values, valueData, addedAll, newValues, todo, k, newValue);
      newValues := newValues[k := newValue];
      todo := todo - {k};
    }
    RecountWithExt(values, valueData, addedAll, newValues);
  }

  lemma AddedValuesAll(values: ValueMap, weights: WeightMap, policies: Policies, active: set<string>)
    ensures forall k | k in values ::
      AddedValues(values, weights, policies, active)[k] == AddedValue(k, values, weights, policies, active)
  {
  }

  /** RecountValues (game/game.go:166-183). */
  method RecountValues(values: ValueMap, valueData: ValueDefs, weights: WeightMap, policies: Policies,
                       active: set<string>) returns (newValues: ValueMap)
    ensures newValues == Recounted(values, valueData, weights, policies, active)
  {
    ghost var addedAll := AddedValues(values, weights, policies, active);
    AddedValuesAll(values, weights, policies, active);
    newValues := RecountLoop(values, valueData, weights, policies, active, addedAll);
  }
}

module RecountLemmas {
  import opened Sums
  import opened Definitions
  import opened Recount

  /** The value of `k` after one turn. */
  lemma RecountedAt(values: ValueMap, valueData: ValueDefs, weights: WeightMap, policies: Policies,
                    active: set<string>, k: string)
    requires k in values
    ensures Recounted(values, valueData, weights, policies, active)[k]
         == NewValue(k, values[k], AddedValue(k, values, weights, policies, active), valueData)
  {
    AddedValuesAt(values, weights, policies, active, k);
  }

  /** Every recounted value lies within the bounds of its definition. */
  lemma RecountWithinBounds(values: ValueMap, valueData: ValueDefs, added: map<string, real>, k: string)
    requires values.Keys <= added.Keys && k in values
    ensures var r := RecountWith(values, valueData, added)[k];
            var def := ValueDefOf(valueData, k);
      && (def.max.SetTo? ==> r <= def.max.value)
      && (def.min.SetTo? && (def.max.Unset? || def.min.value <= def.max.value) ==> r >= def.min.value)
      && ((def.min.Unset? || values[k] + added[k] + def.naturalChange >= def.min.value)
          && (def.max.Unset? || values[k] + added[k] + def.naturalChange <= def.max.value)
          ==> r == values[k] + added[k] + def.naturalChange)
  {
  }

  /** A value without a definition just adds what the turn gives it. */
  lemma RecountUndefined(values: ValueMap, valueData: ValueDefs, added: map<string, real>, k: string)
    requires values.Keys <= added.Keys && k in values && k !in valueData
    ensures RecountWith(values, valueData, added)[k] == values[k] + added[k]
  {
  }

  /** A policy that becomes active adds its flat amount for `key` to the turn. */
  lemma FlatSumInsert(key: string, policies: Policies, active: set<string>, p: string)
    requires p !in active
    ensures FlatSum(key, policies, active + {p})
         == FlatSum(key, policies, active) + FlatAmount(PolicyOf(policies, p).flat, key)
  {
    SumInsert(active, FlatTerm(policies, key), p);
  }

  /** Active policies without a flat entry for `key` give it nothing. */
  lemma FlatSumIgnoresOthers(key: string, policies: Policies, active: set<string>)
    requires forall p, f | p in active && f in PolicyOf(policies, p).flat :: f.valueName != key
    ensures FlatSum(key, policies, active) == 0.0
  {
    SumOfZeros(active, FlatTerm(policies, key));
  }

  /** A value with no edge into it and no active flat amount only takes its
      natural change (then the clamp). */
  lemma RecountedIdle(values: ValueMap, valueData: ValueDefs, weights: WeightMap, policies: Policies,
                      active: set<string>, k: string)
    requires k in values && EdgesOf(weights, k) == map[]
    requires forall p, f | p in active && f in PolicyOf(policies, p).flat :: f.valueName != k
    ensures Recounted(values, valueData, weights, policies, active)[k] == NewValue(k, values[k], 0.0, valueData)
  {
    RecountedAt(values, valueData, weights, policies, active, k);
    FlatSumIgnoresOthers(k, policies, active);
    assert EdgesOf(weights, k).Keys == {};
  }

  /** A single unclamped edge: value "x" at 10 influenced by "trust" at 50 with
      multiplier 0.1, and no policy, rises to 15. */
  lemma SingleEdgeExample()
    ensures var values := map["x" := 10.0, "trust" := 50.0];
            var weights := map["x" := map["trust" := Weight(0.1, Unset, Unset)]];
            Recounted(values, map[], weights, Policies(map[], []), {})["x"] == 15.0
  {
    var values := map["x" := 10.0, "trust" := 50.0];
    var edges := map["trust" := Weight(0.1, Unset, Unset)];
    var weights := map["x" := edges];
    var f := EdgeTerm(values, edges);
    assert edges.Keys == {"trust"};
    SumPeel({"trust"}, f, "trust");
    assert {"trust"} - {"trust"} == {};
    assert EdgeSum("x", values, weights) == 5.0;
    RecountedAt(values, map[], weights, Policies(map[], []), {}, "x");
  }
}
