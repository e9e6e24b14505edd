/** Automatic deactivation of policies (ReEvaluatePolicies,
    game/game.go:115-134): a policy is dropped when one of its restrictions
    names a value below the restriction's amount. */
module PolicyRules {
  import opened Definitions

  /** The restriction is violated; a value that is not in the map reads as 0. */
  predicate Violates(r: Restriction, values: ValueMap) {
    ValueOf(values, r.valueName) < r.amount
  }

  /** Some restriction of the policy is violated. */
  predicate ViolatesAny(def: PolicyDef, values: ValueMap) {
    exists i | 0 <= i < |def.restrictions| :: Violates(def.restrictions[i], values)
  }

  /** The policies that survive re-evaluation. */
  function Kept(active: set<string>, policies: Policies, values: ValueMap): (kept: set<string>)
    ensures kept <= active
    ensures forall k | k in kept ::
      forall i | 0 <= i < |PolicyOf(policies, k).restrictions| ::
        ValueOf(values, PolicyOf(policies, k).restrictions[i].valueName) >= PolicyOf(policies, k).restrictions[i].amount
  {
    set k | k in active && !ViolatesAny(PolicyOf(policies, k), values)
  }

  /** The inner loop of game/game.go:118-122: one entry of `k` per violated
      restriction, appended to `removals`. */
  method CollectViolations(k: string, def: PolicyDef, values: ValueMap, removals: seq<string>)
    returns (out: seq<string>)
    ensures forall x | x in out :: x in removals || x == k
    ensures forall x | x in removals :: x in out
    ensures k in out <==> k in removals || ViolatesAny(def, values)
  {
    out := removals;
    var i := 0;
    while i < |def.restrictions|
      invariant 0 <= i <= |def.restrictions|
      invariant forall x | x in out :: x in removals || x == k
      invariant forall x | x in removals :: x in out
      invariant k in out <==> k in removals || exists j | 0 <= j < i :: Violates(def.restrictions[j], values)
    {
      var r := def.restrictions[i];
      if ValueOf(values, r.valueName) < r.amount {
        out := out + [k];
      }
      i := i + 1;
    }
  }

  /** The Go function: collect the policies to remove (visiting the active
      set in any order), copy the active set, then delete each collected name.
      The input set is a value and is left as it was. */
  method ReEvaluatePolicies(activePolicies: set<string>, policies: Policies, values: ValueMap)
    returns (newPolicies: set<string>)
    ensures newPolicies == Kept(activePolicies, policies, values)
    ensures newPolicies <= activePolicies
    ensures forall k | k in activePolicies ::
      k in newPolicies <==> !ViolatesAny(PolicyOf(policies, k), values)
  {
    var removePolicies: seq<string> := [];
    var todo := activePolicies;
    while todo != {}
      invariant todo <= activePolicies
      invariant forall x | x in removePolicies :: x in activePolicies - todo
      invariant forall x | x in activePolicies - todo ::
        x in removePolicies <==> ViolatesAny(PolicyOf(policies, x), values)
      decreases todo
    {
      var k :| k in todo;
      removePolicies := CollectViolations(k, PolicyOf(policies, k), values, removePolicies);
      todo := todo - {k};
    }
    newPolicies := activePolicies;
    var i := 0;
    while i < |removePolicies|
      invariant 0 <= i <= |removePolicies|
      invariant newPolicies == activePolicies - set j | 0 <= j < i :: removePolicies[j]
    {
      newPolicies := newPolicies - {removePolicies[i]};
      i := i + 1;
    }
    assert forall x :: x in removePolicies <==> x in set j | 0 <= j < |removePolicies| :: removePolicies[j];
  }
}

module PolicyLemmas {
  import opened Definitions
  import opened PolicyRules

  /** A policy without restrictions is never dropped. */
  lemma UnrestrictedKept(active: set<string>, policies: Policies, values: ValueMap, k: string)
    requires k in active && PolicyOf(policies, k).restrictions == []
    ensures k in Kept(active, policies, values)
  {
  }

  /** A policy is dropped as soon as one restriction is violated. */
  lemma ViolatedDropped(active: set<string>, policies: Policies, values: ValueMap, k: string, i: int)
    requires 0 <= i < |PolicyOf(policies, k).restrictions|
    requires Violates(PolicyOf(policies, k).restrictions[i], values)
    ensures k !in Kept(active, policies, values)
  {
  }

  /** Re-evaluating a second time against the same values drops nothing more. */
  lemma KeptIdempotent(active: set<string>, policies: Policies, values: ValueMap)
    ensures Kept(Kept(active, policies, values), policies, values) == Kept(active, policies, values)
  {
  }

  /** Re-evaluation treats each policy on its own: it distributes over union. */
  lemma KeptUnion(a: set<string>, b: set<string>, policies: Policies, values: ValueMap)
    ensures Kept(a + b, policies, values) == Kept(a, policies, values) + Kept(b, policies, values)
  {
  }
}
