/** The influence graph of one turn (CalculateWeightMap, game/game.go:91-113):
    the edges every value declares, plus the weight deltas of the active
    policies. The map is given in closed form; `WeightMapAnyOrder` shows that
    the Go loop, which visits the active policies in whatever order the map
    yields them, reaches exactly this closed form. */
module Weights {
  import opened Failures
  import opened Sums
  import opened Definitions

  /** The weight an `affected_by` entry declares. */
  function EdgeOf(i: Influence): Weight {
    Weight(i.weight, i.max, i.min)
  }

  /** Entry `i` is the last one of `affectedBy` that names `source`. */
  predicate IsLastEntry(affectedBy: seq<Influence>, i: int, source: string) {
    && 0 <= i < |affectedBy|
    && affectedBy[i].name == source
    && forall j | i < j < |affectedBy| :: affectedBy[j].name != source
  }

  /** Index of the last entry of `affectedBy` naming `source`, or -1. */
  function LastIndex(affectedBy: seq<Influence>, source: string): (i: int)
    ensures -1 <= i < |affectedBy|
    ensures i == -1 <==> forall j | 0 <= j < |affectedBy| :: affectedBy[j].name != source
    ensures i >= 0 ==> IsLastEntry(affectedBy, i, source)
    decreases |affectedBy|
  {
    if |affectedBy| == 0 then -1
    else if affectedBy[|affectedBy| - 1].name == source then |affectedBy| - 1
    else LastIndex(affectedBy[..|affectedBy| - 1], source)
  }

  /** The edges one value declares; a later entry for the same source
      overwrites an earlier one. */
  function DeclaredEdges(affectedBy: seq<Influence>): (edges: map<string, Weight>)
    ensures edges.Keys == set i | 0 <= i < |affectedBy| :: affectedBy[i].name
    ensures forall s | s in edges ::
      LastIndex(affectedBy, s) >= 0 && edges[s] == EdgeOf(affectedBy[LastIndex(affectedBy, s)])
    decreases |affectedBy|
  {
    if |affectedBy| == 0 then map[]
    else
      var init := affectedBy[..|affectedBy| - 1];
      var last := affectedBy[|affectedBy| - 1];
      assert (set i | 0 <= i < |affectedBy| :: affectedBy[i].name)
          == (set i | 0 <= i < |init| :: init[i].name) + {last.name};
      DeclaredEdges(init)[last.name := EdgeOf(last)]
  }

  lemma DeclaredEdgesAt(affectedBy: seq<Influence>, source: string)
    ensures source in DeclaredEdges(affectedBy) <==> LastIndex(affectedBy, source) >= 0
    ensures source in DeclaredEdges(affectedBy) ==>
      DeclaredEdges(affectedBy)[source] == EdgeOf(affectedBy[LastIndex(affectedBy, source)])
  {
    var i := LastIndex(affectedBy, source);
    if i >= 0 {
      assert affectedBy[i].name == source;
    }
  }

  /** The weight map when no policy is active. */
  function DeclaredMap(values: ValueDefs): (wm: WeightMap)
    ensures wm.Keys == values.Keys
  {
    map d | d in values :: DeclaredEdges(values[d].affectedBy)
  }

  /** Total delta that a list of weight changes adds to edge (dest, source). */
  function PolicyDelta(changes: seq<WeightChange>, dest: string, source: string): (delta: real)
    ensures (forall c | c in changes :: c.dest != dest || c.source != source) ==> delta == 0.0
    decreases |changes|
  {
    if |changes| == 0 then 0.0
    else
      var c := changes[|changes| - 1];
      assert forall x | x in changes[..|changes| - 1] :: x in changes;
      PolicyDelta(changes[..|changes| - 1], dest, source)
        + (if c.dest == dest && c.source == source then c.weight else 0.0)
  }

  function DeltaTerm(policies: Policies, dest: string, source: string): string -> real {
    p => PolicyDelta(PolicyOf(policies, p).weightChange, dest, source)
  }

  /** Sum of the deltas all active policies add to edge (dest, source). */
  ghost function DeltaSum(policies: Policies, active: set<string>, dest: string, source: string): real {
    Sum(active, DeltaTerm(policies, dest, source))
  }

  /** Sources of `dest` that some active policy's weight change names. */
  function ChangedSources(policies: Policies, active: set<string>, dest: string): set<string> {
    set p, c | p in active && c in PolicyOf(policies, p).weightChange && c.dest == dest :: c.source
  }

  /** Some active policy changes an edge into a value that is not declared;
      Go writes into a nil inner map there and panics. */
  predicate WritesUndeclared(policies: Policies, values: ValueDefs, active: set<string>) {
    exists p, c | p in active && c in PolicyOf(policies, p).weightChange :: c.dest !in values
  }

  /** Edge (dest, source) with the deltas of the active policies added to the
      declared weight, or to weight 0 without clamps when nothing is declared. */
  ghost function EdgeWeight(policies: Policies, declared: map<string, Weight>, active: set<string>,
                            dest: string, source: string): Weight
  {
    var base := WeightAt(declared, source);
    base.(multiplier := base.multiplier + DeltaSum(policies, active, dest, source))
  }

  /** The sources with an edge into `dest`: declared ones and changed ones. */
  function RowSources(policies: Policies, affectedBy: seq<Influence>, active: set<string>, dest: string): set<string> {
    DeclaredEdges(affectedBy).Keys + ChangedSources(policies, active, dest)
  }

  ghost function EdgesAfterDeltas(policies: Policies, affectedBy: seq<Influence>, active: set<string>, dest: string)
    : map<string, Weight>
  {
    map s | s in RowSources(policies, affectedBy, active, dest) ::
      EdgeWeight(policies, DeclaredEdges(affectedBy), active, dest, s)
  }

  /** The weight map when no write fails. */
  ghost function ClosedForm(policies: Policies, values: ValueDefs, active: set<string>): (wm: WeightMap)
    ensures wm.Keys == values.Keys
  {
    map d | d in values :: EdgesAfterDeltas(policies, values[d].affectedBy, active, d)
  }

  ghost function CalculateWeightMap(policies: Policies, values: ValueDefs, active: set<string>): (r: Result<WeightMap>)
    ensures r.Err? <==> WritesUndeclared(policies, values, active)
    ensures r.Err? ==> r.error == NilMapWrite
    ensures r.Ok? ==> r.value.Keys == values.Keys
  {
    if WritesUndeclared(policies, values, active) then Err(NilMapWrite)
    else Ok(ClosedForm(policies, values, active))
  }

  // ---------------------------------------------------------------------
  // The loop body of game/game.go:104-110, one policy at a time.

  /** One weight change: read the edge (zero weight when absent), add the
      delta, write it back; writing into an undeclared value fails. */
  function AddChange(wm: WeightMap, c: WeightChange): (r: Result<WeightMap>)
    ensures r.Err? <==> c.dest !in wm
    ensures r.Ok? ==> r.value.Keys == wm.Keys && r.value[c.dest].Keys == wm[c.dest].Keys + {c.source}
    ensures r.Ok? ==>
      && r.value[c.dest][c.source].multiplier == WeightAt(wm[c.dest], c.source).multiplier + c.weight
      && r.value[c.dest][c.source].max == WeightAt(wm[c.dest], c.source).max
      && r.value[c.dest][c.source].min == WeightAt(wm[c.dest], c.source).min
  {
    if c.dest !in wm then Err(NilMapWrite)
    else
      var row := wm[c.dest];
      var w := WeightAt(row, c.source);
      Ok(wm[c.dest := row[c.source := w.(multiplier := w.multiplier + c.weight)]])
  }

  /** All weight changes of one policy, in list order. */
  function ApplyChanges(wm: WeightMap, changes: seq<WeightChange>): (r: Result<WeightMap>)
    ensures |changes| == 0 ==> r == Ok(wm)
    ensures r.Ok? ==> r.value.Keys == wm.Keys
    decreases |changes|
  {
    if |changes| == 0 then Ok(wm)
    else
      var prev :- ApplyChanges(wm, changes[..|changes| - 1]);
      AddChange(prev, changes[|changes| - 1])
  }

  /** The policies of `order`, visited first to last. */
  function LoopDeltas(wm: WeightMap, policies: Policies, order: seq<string>): (r: Result<WeightMap>)
    ensures |order| == 0 ==> r == Ok(wm)
    ensures r.Ok? ==> r.value.Keys == wm.Keys
    decreases |order|
  {
    if |order| == 0 then Ok(wm)
    else
      var prev :- LoopDeltas(wm, policies, order[..|order| - 1]);
      ApplyChanges(prev, PolicyOf(policies, order[|order| - 1]).weightChange)
  }

  function SourcesChanged(changes: seq<WeightChange>, dest: string): set<string> {
    set c | c in changes && c.dest == dest :: c.source
  }

  /** The weight Go reads for `source` in a row: the zero weight when absent. */
  function WeightAt(row: map<string, Weight>, source: string): Weight {
    if source in row then row[source] else ZeroWeight
  }

  /** Edge (dest, source) of `wm` with `delta` added to its multiplier. */
  function Shifted(wm: WeightMap, dest: string, source: string, delta: real): Weight
    requires dest in wm
  {
    var w := WeightAt(wm[dest], source);
    w.(multiplier := w.multiplier + delta)
  }
}

module WeightLemmas {
  import opened Failures
  import opened Sums
  import opened Definitions
  import opened Weights

  /** Deltas of several active policies add up: a further policy adds its own
      delta to every edge. */
  lemma DeltaSumAdditive(policies: Policies, active: set<string>, p: string, dest: string, source: string)
    requires p !in active
    ensures DeltaSum(policies, active + {p}, dest, source)
         == DeltaSum(policies, active, dest, source) + PolicyDelta(PolicyOf(policies, p).weightChange, dest, source)
  {
    SumInsert(active, DeltaTerm(policies, dest, source), p);
  }

  /** An edge that no active policy changes gets no delta. */
  lemma DeltaSumUntouched(policies: Policies, active: set<string>, dest: string, source: string)
    requires source !in ChangedSources(policies, active, dest)
    ensures DeltaSum(policies, active, dest, source) == 0.0
  {
    var f := DeltaTerm(policies, dest, source);
    forall p | p in active ensures f(p) == 0.0 {
      var cs := PolicyOf(policies, p).weightChange;
      forall c | c in cs ensures c.dest != dest || c.source != source {
        if c.dest == dest {
          assert c.source in ChangedSources(policies, active, dest);
        }
      }
    }
    SumOfZeros(active, f);
  }

  /** With no active policy, every value keeps exactly the edges it declares. */
  lemma WeightMapWithoutPolicies(policies: Policies, values: ValueDefs)
    ensures CalculateWeightMap(policies, values, {}) == Ok(DeclaredMap(values))
  {
    var r := CalculateWeightMap(policies, values, {});
    forall d | d in values
      ensures EdgesAfterDeltas(policies, values[d].affectedBy, {}, d) == DeclaredEdges(values[d].affectedBy)
    {
      var declared := DeclaredEdges(values[d].affectedBy);
      var e := EdgesAfterDeltas(policies, values[d].affectedBy, {}, d);
      assert ChangedSources(policies, {}, d) == {};
      EdgesAfterDeltasKeys(policies, values[d].affectedBy, {}, d);
      forall s | s in declared ensures WeightAt(e, s) == WeightAt(declared, s) {
        EdgesAfterDeltasWeightAt(policies, values[d].affectedBy, {}, d, s);
        assert DeltaSum(policies, {}, d, s) == 0.0;
      }
      RowsEqual(e, declared);
    }
    assert r.value == DeclaredMap(values);
  }

  /** Row `dest` of `r` is row `dest` of `wm` with the deltas of `changes` added. */
  ghost predicate RowShifted(wm: WeightMap, r: WeightMap, changes: seq<WeightChange>, dest: string)
    requires dest in wm && dest in r
  {
    && r[dest].Keys == wm[dest].Keys + SourcesChanged(changes, dest)
    && forall s | s in r[dest] :: r[dest][s] == Shifted(wm, dest, s, PolicyDelta(changes, dest, s))
  }

  ghost predicate MapShifted(wm: WeightMap, r: WeightMap, changes: seq<WeightChange>) {
    && r.Keys == wm.Keys
    && forall d | d in wm :: RowShifted(wm, r, changes, d)
  }

  lemma SourcesChangedAppend(changes: seq<WeightChange>, c: WeightChange, dest: string)
    ensures SourcesChanged(changes + [c], dest)
         == SourcesChanged(changes, dest) + (if c.dest == dest then {c.source} else {})
  {
    assert forall x :: x in changes + [c] <==> x in changes || x == c;
  }

  lemma PolicyDeltaAppend(changes: seq<WeightChange>, c: WeightChange, dest: string, source: string)
    ensures PolicyDelta(changes + [c], dest, source)
         == PolicyDelta(changes, dest, source) + (if c.dest == dest && c.source == source then c.weight else 0.0)
  {
    assert (changes + [c])[..|changes|] == changes;
  }

  /** One edge after one more weight change. */
  lemma AddChangeEdge(wm: WeightMap, prev: WeightMap, changes: seq<WeightChange>, c: WeightChange,
                      dest: string, source: string)
    requires dest in wm && dest in prev && c.dest in prev
    requires RowShifted(wm, prev, changes, dest)
    requires source in AddChange(prev, c).value[dest]
    ensures AddChange(prev, c).value[dest][source] == Shifted(wm, dest, source, PolicyDelta(changes + [c], dest, source))
  {
    PolicyDeltaAppend(changes, c, dest, source);
    if dest == c.dest && source == c.source && source !in prev[dest] {
      assert source !in SourcesChanged(changes, dest);
      assert forall x | x in changes :: x.dest != dest || x.source != source;
    }
  }

  lemma AddChangeRow(wm: WeightMap, prev: WeightMap, changes: seq<WeightChange>, c: WeightChange, d: string)
    requires d in wm && d in prev && c.dest in prev
    requires RowShifted(wm, prev, changes, d)
    ensures d in AddChange(prev, c).value && RowShifted(wm, AddChange(prev, c).value, changes + [c], d)
  {
    var r := AddChange(prev, c).value;
    var cs := changes + [c];
    SourcesChangedAppend(changes, c, d);
    forall s | s in r[d] ensures r[d][s] == Shifted(wm, d, s, PolicyDelta(cs, d, s)) {
      AddChangeEdge(wm, prev, changes, c, d, s);
    }
  }

  /** One weight change on top of a map already shifted by `changes`. */
  lemma AddChangeStep(wm: WeightMap, prev: WeightMap, changes: seq<WeightChange>, c: WeightChange)
    requires MapShifted(wm, prev, changes) && c.dest in wm
    ensures AddChange(prev, c).Ok? && MapShifted(wm, AddChange(prev, c).value, changes + [c])
  {
    var r := AddChange(prev, c).value;
    forall d | d in wm ensures RowShifted(wm, r, changes + [c], d) {
      assert RowShifted(wm, prev, changes, d);
      AddChangeRow(wm, prev, changes, c, d);
    }
  }

  /** The weight changes of one policy fail exactly when one of them names an
      undeclared value. */
  lemma {:induction false} ApplyChangesFails(wm: WeightMap, changes: seq<WeightChange>)
    ensures ApplyChanges(wm, changes).Err? <==> exists c | c in changes :: c.dest !in wm
    ensures ApplyChanges(wm, changes).Err? ==> ApplyChanges(wm, changes).error == NilMapWrite
    ensures ApplyChanges(wm, changes).Ok? ==> ApplyChanges(wm, changes).value.Keys == wm.Keys
    decreases |changes|
  {
    if |changes| > 0 {
      var init := changes[..|changes| - 1];
      var c := changes[|changes| - 1];
      assert forall x :: x in changes <==> x in init || x == c;
      ApplyChangesFails(wm, init);
    }
  }

  /** What the Go loop body does with one policy's weight changes: every
      changed edge gains the sum of its deltas, created at weight 0 when absent. */
  lemma {:induction false} ApplyChangesEffect(wm: WeightMap, changes: seq<WeightChange>)
    requires ApplyChanges(wm, changes).Ok?
    ensures MapShifted(wm, ApplyChanges(wm, changes).value, changes)
    decreases |changes|
  {
    if |changes| == 0 {
      assert forall d | d in wm :: SourcesChanged(changes, d) == {};
    } else {
      var init := changes[..|changes| - 1];
      var c := changes[|changes| - 1];
      assert changes == init + [c];
      ApplyChangesEffect(wm, init);
      ApplyChangesFails(wm, init);
      AddChangeStep(wm, ApplyChanges(wm, init).value, init, c);
    }
  }

  lemma ChangedSourcesInsert(policies: Policies, active: set<string>, p: string, dest: string)
    ensures ChangedSources(policies, active + {p}, dest)
         == ChangedSources(policies, active, dest) + SourcesChanged(PolicyOf(policies, p).weightChange, dest)
  {
  }

  /** Membership and value of one entry of a row of the closed form. */
  lemma EdgesAfterDeltasAt(policies: Policies, affectedBy: seq<Influence>, active: set<string>,
                           dest: string, source: string)
    ensures var e := EdgesAfterDeltas(policies, affectedBy, active, dest);
      && (source in e <==> source in DeclaredEdges(affectedBy) || source in ChangedSources(policies, active, dest))
      && (source in e ==> e[source] == EdgeWeight(policies, DeclaredEdges(affectedBy), active, dest, source))
  {
  }

  /** One more active policy adds its delta to the edge's multiplier. */
  lemma EdgeWeightStep(policies: Policies, declared: map<string, Weight>, active: set<string>, p: string,
                       dest: string, source: string)
    requires p !in active
    ensures var w := EdgeWeight(policies, declared, active, dest, source);
      EdgeWeight(policies, declared, active + {p}, dest, source)
        == w.(multiplier := w.multiplier + PolicyDelta(PolicyOf(policies, p).weightChange, dest, source))
  {
    DeltaSumAdditive(policies, active, p, dest, source);
  }

  /** Any edge of the closed form, present or not, is its `EdgeWeight`. */
  lemma EdgesAfterDeltasWeightAt(policies: Policies, affectedBy: seq<Influence>, active: set<string>,
                                 dest: string, source: string)
    ensures WeightAt(EdgesAfterDeltas(policies, affectedBy, active, dest), source)
         == EdgeWeight(policies, DeclaredEdges(affectedBy), active, dest, source)
  {
    EdgesAfterDeltasAt(policies, affectedBy, active, dest, source);
    if source !in EdgesAfterDeltas(policies, affectedBy, active, dest) {
      DeltaSumUntouched(policies, active, dest, source);
    }
  }

  /** Edge (dest, source) after adding policy `p` to the active set. */
  lemma StepEdge(policies: Policies, affectedBy: seq<Influence>, active: set<string>, p: string,
                 dest: string, source: string)
    requires p !in active
    ensures var w := WeightAt(EdgesAfterDeltas(policies, affectedBy, active, dest), source);
      WeightAt(EdgesAfterDeltas(policies, affectedBy, active + {p}, dest), source)
        == w.(multiplier := w.multiplier + PolicyDelta(PolicyOf(policies, p).weightChange, dest, source))
  {
    EdgesAfterDeltasWeightAt(policies, affectedBy, active, dest, source);
    EdgesAfterDeltasWeightAt(policies, affectedBy, active + {p}, dest, source);
    EdgeWeightStep(policies, DeclaredEdges(affectedBy), active, p, dest, source);
  }

  lemma EdgesAfterDeltasKeys(policies: Policies, affectedBy: seq<Influence>, active: set<string>, dest: string)
    ensures EdgesAfterDeltas(policies, affectedBy, active, dest).Keys == RowSources(policies, affectedBy, active, dest)
  {
  }

  lemma RowSourcesInsert(policies: Policies, affectedBy: seq<Influence>, active: set<string>, p: string, dest: string)
    ensures RowSources(policies, affectedBy, active + {p}, dest)
         == RowSources(policies, affectedBy, active, dest) + SourcesChanged(PolicyOf(policies, p).weightChange, dest)
  {
    ChangedSourcesInsert(policies, active, p, dest);
  }

  lemma StepKeys(policies: Policies, affectedBy: seq<Influence>, active: set<string>, p: string, dest: string)
    ensures EdgesAfterDeltas(policies, affectedBy, active + {p}, dest).Keys
         == EdgesAfterDeltas(policies, affectedBy, active, dest).Keys
            + SourcesChanged(PolicyOf(policies, p).weightChange, dest)
  {
    RowSourcesInsert(policies, affectedBy, active, p, dest);
    EdgesAfterDeltasKeys(policies, affectedBy, active, dest);
    EdgesAfterDeltasKeys(policies, affectedBy, active + {p}, dest);
  }

  /** Rows with the same keys and the same weight at each key are equal. */
  lemma RowsEqual(a: map<string, Weight>, b: map<string, Weight>)
    requires a.Keys == b.Keys
    requires forall s | s in a :: WeightAt(a, s) == WeightAt(b, s)
    ensures a == b
  {
  }

  /** The deltas of `changes` added to each edge of `before`. */
  ghost predicate RowPlusDeltas(before: map<string, Weight>, after: map<string, Weight>,
                                changes: seq<WeightChange>, dest: string)
  {
    forall s | s in after ::
      after[s] == WeightAt(before, s).(multiplier := WeightAt(before, s).multiplier + PolicyDelta(changes, dest, s))
  }

  lemma StepRowWeights(policies: Policies, affectedBy: seq<Influence>, active: set<string>, p: string, dest: string,
                       after: map<string, Weight>)
    requires p !in active
    requires RowPlusDeltas(EdgesAfterDeltas(policies, affectedBy, active, dest), after,
                           PolicyOf(policies, p).weightChange, dest)
    ensures forall s | s in after ::
      WeightAt(EdgesAfterDeltas(policies, affectedBy, active + {p}, dest), s) == WeightAt(after, s)
  {
    forall s | s in after
      ensures WeightAt(EdgesAfterDeltas(policies, affectedBy, active + {p}, dest), s) == WeightAt(after, s)
    {
      StepEdge(policies, affectedBy, active, p, dest, s);
    }
  }

  /** Row `dest` after adding policy `p` to the active set. */
  lemma StepRow(policies: Policies, affectedBy: seq<Influence>, active: set<string>, p: string, dest: string,
                before: map<string, Weight>, after: map<string, Weight>)
    requires p !in active
    requires before == EdgesAfterDeltas(policies, affectedBy, active, dest)
    requires after.Keys == before.Keys + SourcesChanged(PolicyOf(policies, p).weightChange, dest)
    requires RowPlusDeltas(before, after, PolicyOf(policies, p).weightChange, dest)
    ensures EdgesAfterDeltas(policies, affectedBy, active + {p}, dest) == after
  {
    StepKeys(policies, affectedBy, active, p, dest);
    StepRowWeights(policies, affectedBy, active, p, dest, after);
    RowsEqual(EdgesAfterDeltas(policies, affectedBy, active + {p}, dest), after);
  }

  /** Row `d` of the map after running policy `p`'s changes. */
  lemma ShiftedPlusDeltas(wm: WeightMap, r: WeightMap, changes: seq<WeightChange>, d: string)
    requires d in wm && d in r
    requires RowShifted(wm, r, changes, d)
    ensures RowPlusDeltas(wm[d], r[d], changes, d)
  {
  }

  lemma ClosedFormAt(policies: Policies, values: ValueDefs, active: set<string>, d: string)
    requires d in values
    ensures ClosedForm(policies, values, active)[d] == EdgesAfterDeltas(policies, values[d].affectedBy, active, d)
  {
  }

  lemma StepOkRow(policies: Policies, values: ValueDefs, active: set<string>, p: string,
                  wm: WeightMap, r: WeightMap, d: string)
    requires p !in active && d in values && d in r
    requires wm == ClosedForm(policies, values, active)
    requires RowShifted(wm, r, PolicyOf(policies, p).weightChange, d)
    ensures ClosedForm(policies, values, active + {p})[d] == r[d]
  {
    var cs := PolicyOf(policies, p).weightChange;
    ShiftedPlusDeltas(wm, r, cs, d);
    ClosedFormAt(policies, values, active, d);
    ClosedFormAt(policies, values, active + {p}, d);
    StepRow(policies, values[d].affectedBy, active, p, d, wm[d], r[d]);
  }

  lemma MapsEqual(a: WeightMap, b: WeightMap)
    requires a.Keys == b.Keys
    requires forall d | d in a :: a[d] == b[d]
    ensures a == b
  {
  }

  /** The loop step when no write fails. */
  lemma WeightMapStepOk(policies: Policies, values: ValueDefs, active: set<string>, p: string)
    requires p !in active
    requires forall c | c in PolicyOf(policies, p).weightChange :: c.dest in values
    ensures ApplyChanges(ClosedForm(policies, values, active), PolicyOf(policies, p).weightChange)
         == Ok(ClosedForm(policies, values, active + {p}))
  {
    var wm := ClosedForm(policies, values, active);
    var cs := PolicyOf(policies, p).weightChange;
    ApplyChangesFails(wm, cs);
    ApplyChangesEffect(wm, cs);
    var r := ApplyChanges(wm, cs).value;
    var m := ClosedForm(policies, values, active + {p});
    forall d | d in m ensures m[d] == r[d] {
      assert RowShifted(wm, r, cs, d);
      StepOkRow(policies, values, active, p, wm, r, d);
    }
    MapsEqual(m, r);
  }

  /** One iteration of the Go loop over the active policies: adding policy `p`
      to the active set is the same as running `p`'s weight changes over the
      map of the others. */
  lemma WeightMapStep(policies: Policies, values: ValueDefs, active: set<string>, p: string)
    requires p !in active
    ensures CalculateWeightMap(policies, values, active).Err? ==>
      CalculateWeightMap(policies, values, active + {p}) == Err(NilMapWrite)
    ensures CalculateWeightMap(policies, values, active).Ok? ==>
      CalculateWeightMap(policies, values, active + {p})
        == ApplyChanges(CalculateWeightMap(policies, values, active).value, PolicyOf(policies, p).weightChange)
  {
    var cs := PolicyOf(policies, p).weightChange;
    if WritesUndeclared(policies, values, active) {
      var q, c :| q in active && c in PolicyOf(policies, q).weightChange && c.dest !in values;
      assert q in active + {p};
    } else {
      var wm := ClosedForm(policies, values, active);
      ApplyChangesFails(wm, cs);
      if exists c | c in cs :: c.dest !in values {
        var c :| c in cs && c.dest !in values;
        assert p in active + {p};
      } else {
        assert !WritesUndeclared(policies, values, active + {p});
        WeightMapStepOk(policies, values, active, p);
      }
    }
  }

  /** Visiting the active policies in any order (Go map iteration order is
      unspecified) yields the closed-form weight map. */
  lemma {:induction false} WeightMapAnyOrder(policies: Policies, values: ValueDefs, order: seq<string>)
    requires forall i, j | 0 <= i < j < |order| :: order[i] != order[j]
    ensures LoopDeltas(DeclaredMap(values), policies, order)
         == CalculateWeightMap(policies, values, set p | p in order)
    decreases |order|
  {
    if |order| == 0 {
      assert (set p | p in order) == {};
      WeightMapWithoutPolicies(policies, values);
    } else {
      var init := order[..|order| - 1];
      var last := order[|order| - 1];
      WeightMapAnyOrder(policies, values, init);
      assert (set p | p in order) == (set p | p in init) + {last};
      assert last !in (set p | p in init);
      WeightMapStep(policies, values, (set p | p in init), last);
    }
  }

  /** One edge of the weight map, stated against the raw definitions: it exists
      when declared or changed by an active policy; a declared edge keeps the
      clamps of its last entry and adds the deltas to that entry's weight; an
      undeclared edge starts from weight 0 without clamps. */
  lemma WeightMapEdge(policies: Policies, values: ValueDefs, active: set<string>, dest: string, source: string)
    requires CalculateWeightMap(policies, values, active).Ok?
    requires dest in values
    ensures var row := CalculateWeightMap(policies, values, active).value[dest];
            var a := values[dest].affectedBy;
            var i := LastIndex(a, source);
      && (source in row <==> i >= 0 || source in ChangedSources(policies, active, dest))
      && (i >= 0 ==>
            row[source] == Weight(a[i].weight + DeltaSum(policies, active, dest, source), a[i].max, a[i].min))
      && (i < 0 && source in ChangedSources(policies, active, dest) ==>
            row[source] == Weight(DeltaSum(policies, active, dest, source), Unset, Unset))
  {
    var a := values[dest].affectedBy;
    var i := LastIndex(a, source);
    ClosedFormAt(policies, values, active, dest);
    EdgesAfterDeltasAt(policies, a, active, dest, source);
    DeclaredEdgesAt(a, source);
  }
}
