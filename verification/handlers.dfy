/** The event handlers (game/handler.go) and the way the session applies an
    event. Branch events change the live store of the branch they address;
    game events change the session store kept in the timeline store's
    attributes. */
module Handlers {
  import opened Failures
  import opened Definitions
  import opened Store
  import opened Events
  import opened Weights
  import opened WeightLemmas
  import opened Recount

  // ---------------------------------------------------------------------
  // Branch events

  /** The policy set after a set-policy event: `state` true switches the
      policy on, false switches it off. Nothing else in the store changes. */
  function WithPolicy(s: BranchStore, policy: string, state: bool): (r: BranchStore)
    ensures policy in r.activePolicies <==> state
    ensures forall q | q != policy :: q in r.activePolicies <==> q in s.activePolicies
    ensures r.(activePolicies := s.activePolicies) == s
  {
    if !state then s.(activePolicies := s.activePolicies - {policy})
    else s.(activePolicies := s.activePolicies + {policy})
  }

  /** SetPolicyHandler: the slot must hold a branch store. */
  function SetPolicyHandler(slot: Attributes, policy: string, state: bool): (r: Result<Attributes>)
    ensures r.Ok? <==> slot.BranchAttributes?
    ensures r.Ok? ==> r.value.BranchAttributes? && (policy in r.value.branch.activePolicies <==> state)
    ensures r.Ok? ==> r.value == BranchAttributes(WithPolicy(slot.branch, policy, state))
  {
    var s :- GetBranchStore(slot);
    Ok(BranchAttributes(WithPolicy(s, policy, state)))
  }

  /** One turn of a branch: the weight map is rebuilt from the value
      definitions and the active policies, every value is recounted against
      it, and the turn counter goes up. Policies and the game-over code are
      left as they are. */
  ghost function TurnAdvanced(data: Data, s: BranchStore): (r: Result<BranchStore>)
    ensures r.Err? <==> WritesUndeclared(data.policies, data.values, s.activePolicies)
    ensures r.Ok? ==> r.value.turn == s.turn + 1
    ensures r.Ok? ==> r.value.activePolicies == s.activePolicies && r.value.gameOver == s.gameOver
    ensures r.Ok? ==> r.value.branchId == s.branchId
    ensures r.Ok? ==> r.value.weights.Keys == data.values.Keys && r.value.values.Keys == s.values.Keys
  {
    var weights :- CalculateWeightMap(data.policies, data.values, s.activePolicies);
    var values := Recounted(s.values, data.values, weights, data.policies, s.activePolicies);
    Ok(s.(weights := weights, values := values, turn := s.turn + 1))
  }

  /** The active policies listed in some order, each once. */
  method ListPolicies(active: set<string>) returns (order: seq<string>)
    ensures (set p | p in order) == active
    ensures forall i, j | 0 <= i < j < |order| :: order[i] != order[j]
  {
    order := [];
    var todo := active;
    while todo != {}
      invariant todo <= active
      invariant forall p :: p in order <==> p in active - todo
      invariant forall i, j | 0 <= i < j < |order| :: order[i] != order[j]
      decreases todo
    {
      var k :| k in todo;
      assert k !in order;
      order := order + [k];
      todo := todo - {k};
    }
  }

  /** CalculateWeightMap as game/game.go:91-113 runs it: the declared edges,
      then the weight changes of every active policy, in whichever order the
      set is visited. */
  method ComputeWeightMap(policies: Policies, values: ValueDefs, active: set<string>)
    returns (r: Result<WeightMap>)
    ensures r == CalculateWeightMap(policies, values, active)
  {
    var order := ListPolicies(active);
    r := LoopDeltas(DeclaredMap(values), policies, order);
    WeightMapAnyOrder(policies, values, order);
  }

  /** NextTurnHandler on the addressed branch's slot. */
  method NextTurnHandler(data: Data, slot: Attributes) returns (r: Result<Attributes>)
    ensures r.Ok? <==> slot.BranchAttributes? && TurnAdvanced(data, slot.branch).Ok?
    ensures r.Ok? ==> r.value == BranchAttributes(TurnAdvanced(data, slot.branch).value)
  {
    if !slot.BranchAttributes? {
      return Err(NotBranchStore);
    }
    var s := slot.branch;
    var weights := ComputeWeightMap(data.policies, data.values, s.activePolicies);
    if weights.Err? {
      return Err(weights.error);
    }
    var values := RecountValues(s.values, data.values, weights.value, data.policies, s.activePolicies);
    r := Ok(BranchAttributes(s.(weights := weights.value, values := values, turn := s.turn + 1)));
  }

  /** The handler of a branch event on the addressed slot. */
  ghost function BranchHandler(data: Data, slot: Attributes, body: EventBody): (r: Result<Attributes>)
    requires IsTimelineEvent(body)
    ensures r.Ok? ==> slot.BranchAttributes? && r.value.BranchAttributes?
  {
    if body.NextTurnBody? then
      var s :- GetBranchStore(slot);
      var next :- TurnAdvanced(data, s);
      Ok(BranchAttributes(next))
    else SetPolicyHandler(slot, body.policy, body.state)
  }

  /** A branch event goes to the live slot of the branch it names. */
  ghost function RouteToBranch(data: Data, root: Attributes, branch: EventId, body: EventBody)
    : (r: Result<Attributes>)
    requires IsTimelineEvent(body)
    ensures !root.TimelineAttributes? ==> r == Err(NotTimelineStore)
    ensures root.TimelineAttributes? ==>
      (r.Ok? <==>
        && GetBranch(root.timeline, branch).Ok?
        && var sid := GetBranch(root.timeline, branch).value.storeId;
           sid < |root.timeline.stores| && BranchHandler(data, root.timeline.stores[sid], body).Ok?)
    ensures r.Ok? ==> root.TimelineAttributes? && r.value.TimelineAttributes?
    ensures r.Ok? ==>
      var sid := GetBranch(root.timeline, branch).value.storeId;
      r.value.timeline.stores == root.timeline.stores[sid := BranchHandler(data, root.timeline.stores[sid], body).value]
    ensures r.Ok? ==> r.value.timeline.attributes == root.timeline.attributes
    ensures r.Ok? ==> r.value.timeline.branches == root.timeline.branches
    ensures r.Ok? ==> r.value.timeline.dictionary == root.timeline.dictionary
    ensures r.Ok? ==> r.value.timeline.rewindStores == root.timeline.rewindStores
    ensures r.Ok? ==> |r.value.timeline.stores| == |root.timeline.stores|
  {
    var tl :- GetTimelineStore(root);
    var b :- GetBranch(tl, branch);
    var slot :- SlotAt(tl.stores, b.storeId);
    var updated :- BranchHandler(data, slot, body);
    Ok(TimelineAttributes(tl.(stores := tl.stores[b.storeId := updated])))
  }

  // ---------------------------------------------------------------------
  // Game events

  /** SetBranchHandler: the current branch becomes `target`. */
  function SetBranchHandler(root: Attributes, target: EventId): (r: Result<Attributes>)
    ensures r.Ok? <==> GetGameStore(root).Ok?
    ensures r.Ok? ==> GetGameStore(r.value) == Ok(GetGameStore(root).value.(currentBranch := target))
    ensures r.Ok? ==> r.value.TimelineAttributes?
    ensures r.Ok? ==> r.value.timeline.(attributes := root.timeline.attributes) == root.timeline
  {
    var game :- GetGameStore(root);
    Ok(PutGameStore(root, game.(currentBranch := target)))
  }

  /** SetScreenHandler: only the current screen changes. */
  function SetScreenHandler(root: Attributes, screen: string): (r: Result<Attributes>)
    ensures r.Ok? <==> GetGameStore(root).Ok?
    ensures r.Ok? ==> GetGameStore(r.value) == Ok(GetGameStore(root).value.(currentScreen := screen))
    ensures r.Ok? ==> r.value.TimelineAttributes?
    ensures r.Ok? ==> r.value.timeline.(attributes := root.timeline.attributes) == root.timeline
  {
    var game :- GetGameStore(root);
    Ok(PutGameStore(root, game.(currentScreen := screen)))
  }

  /** SetSelectedValueHandler: only the selected value changes. */
  function SetSelectedValueHandler(root: Attributes, value: string): (r: Result<Attributes>)
    ensures r.Ok? <==> GetGameStore(root).Ok?
    ensures r.Ok? ==> GetGameStore(r.value) == Ok(GetGameStore(root).value.(selectedValue := value))
    ensures r.Ok? ==> r.value.TimelineAttributes?
    ensures r.Ok? ==> r.value.timeline.(attributes := root.timeline.attributes) == root.timeline
  {
    var game :- GetGameStore(root);
    Ok(PutGameStore(root, game.(selectedValue := value)))
  }

  /** The session store exists, the current branch is registered, and both
      its live and its rewound slot hold branch stores. */
  predicate SlotsHeld(tl: Timeline) {
    && tl.attributes.GameAttributes?
    && GetBranch(tl, tl.attributes.game.currentBranch).Ok?
    && var sid := GetBranch(tl, tl.attributes.game.currentBranch).value.storeId;
       && sid < |tl.stores| && sid < |tl.rewindStores|
       && tl.stores[sid].BranchAttributes? && tl.rewindStores[sid].BranchAttributes?
  }

  /** SameTime: whether the current branch's rewound store is at the same turn
      as its live store. Every lookup on the way must succeed. */
  function SameTime(tl: Timeline): (r: Result<bool>)
    ensures r.Ok? <==> SlotsHeld(tl)
    ensures !tl.attributes.GameAttributes? ==> r == Err(NotGameStore)
    ensures r.Ok? ==> tl.attributes.GameAttributes?
    ensures r.Ok? ==> GetBranch(tl, tl.attributes.game.currentBranch).Ok?
    ensures r.Ok? ==>
      var sid := GetBranch(tl, tl.attributes.game.currentBranch).value.storeId;
      && sid < |tl.stores| && sid < |tl.rewindStores|
      && tl.stores[sid].BranchAttributes? && tl.rewindStores[sid].BranchAttributes?
      && (r.value <==> tl.rewindStores[sid].branch.turn == tl.stores[sid].branch.turn)
  {
    if !tl.attributes.GameAttributes? then Err(NotGameStore)
    else
      var b :- GetBranch(tl, tl.attributes.game.currentBranch);
      var rewoundSlot :- SlotAt(tl.rewindStores, b.storeId);
      var rewound :- GetBranchStore(rewoundSlot);
      var liveSlot :- SlotAt(tl.stores, b.storeId);
      var live :- GetBranchStore(liveSlot);
      Ok(rewound.turn == live.turn)
  }

  /** WindbackHandler: the library installs the rewound stores it has
      rebuilt; the session is marked rewound exactly when the current branch's
      rewound store is at another turn than its live store. */
  function WindbackHandler(root: Attributes, rewindStores: seq<Attributes>): (r: Result<Attributes>)
    ensures !root.TimelineAttributes? ==> r == Err(NotTimelineStore)
    ensures root.TimelineAttributes? ==> (r.Ok? <==> SlotsHeld(root.timeline.(rewindStores := rewindStores)))
    ensures r.Ok? ==> root.TimelineAttributes? && r.value.TimelineAttributes? && SlotsHeld(r.value.timeline)
    ensures r.Ok? ==>
      var tl := r.value.timeline;
      var sid := GetBranch(tl, tl.attributes.game.currentBranch).value.storeId;
      (tl.attributes.game.rewind <==> tl.rewindStores[sid].branch.turn != tl.stores[sid].branch.turn)
    ensures r.Ok? ==> r.value.timeline.rewindStores == rewindStores
    ensures r.Ok? ==>
      r.value.timeline.(rewindStores := root.timeline.rewindStores, attributes := root.timeline.attributes)
        == root.timeline
    ensures r.Ok? ==> GetGameStore(r.value).Ok? && GetGameStore(root).Ok?
    ensures r.Ok? ==> GetGameStore(r.value).value.(rewind := GetGameStore(root).value.rewind)
                      == GetGameStore(root).value
  {
    var tl :- GetTimelineStore(root);
    var wound := tl.(rewindStores := rewindStores);
    var game :- GetGameStore(TimelineAttributes(wound));
    var same :- SameTime(wound);
    Ok(TimelineAttributes(wound.(attributes := GameAttributes(game.(rewind := !same)))))
  }

  // ---------------------------------------------------------------------
  // The session

  /** One event, sent to its handler. No handler adds or removes a branch;
      branch events leave the session store alone, and game events leave
      every live branch store alone. */
  ghost function Apply(data: Data, root: Attributes, e: Event): (r: Result<Attributes>)
    ensures !root.TimelineAttributes? ==> r.Err?
    ensures r.Ok? ==> r.value.TimelineAttributes?
    ensures r.Ok? ==> r.value.timeline.branches == root.timeline.branches
    ensures r.Ok? ==> r.value.timeline.dictionary == root.timeline.dictionary
    ensures r.Ok? && !e.body.WindbackBody? ==> r.value.timeline.rewindStores == root.timeline.rewindStores
    ensures r.Ok? && IsTimelineEvent(e.body) ==> r.value.timeline.attributes == root.timeline.attributes
    ensures r.Ok? && !IsTimelineEvent(e.body) ==> r.value.timeline.stores == root.timeline.stores
  {
    match e.body
    case NextTurnBody(b) => RouteToBranch(data, root, b, e.body)
    case SetPolicyBody(b, _, _) => RouteToBranch(data, root, b, e.body)
    case SetBranchBody(t) => SetBranchHandler(root, t)
    case SetScreenBody(s) => SetScreenHandler(root, s)
    case SetSelectedValueBody(v) => SetSelectedValueHandler(root, v)
    case WindbackBody(rs) => WindbackHandler(root, rs)
  }

  /** Events applied first to last; the first failure stops the session. */
  ghost function ApplyAll(data: Data, root: Attributes, events: seq<Event>): (r: Result<Attributes>)
    ensures |events| == 0 ==> r == Ok(root)
    ensures |events| > 0 && !root.TimelineAttributes? ==> r.Err?
    ensures r.Ok? && root.TimelineAttributes? ==>
      && r.value.TimelineAttributes?
      && r.value.timeline.branches == root.timeline.branches
      && r.value.timeline.dictionary == root.timeline.dictionary
    decreases |events|
  {
    if |events| == 0 then Ok(root)
    else
      var next :- Apply(data, root, events[0]);
      ApplyAll(data, next, events[1..])
  }
}

module HandlerLemmas {
  import opened Failures
  import opened Definitions
  import opened Store
  import opened Events
  import opened Weights
  import opened Recount
  import opened Handlers

  /** The policy set a set-policy event for `p` leaves behind: `p` flipped,
      every other policy as it was. */
  function Toggled(active: set<string>, p: string): set<string> {
    if p in active then active - {p} else active + {p}
  }

  /** A set-policy event built in a state and applied to it flips the policy
      in the current branch and changes nothing else in that branch. */
  lemma SetPolicyToggles(data: Data, root: Attributes, p: string, lastSeq: nat)
    requires CurrentBranchStore(root).Ok?
    ensures SetPolicy(root, p, lastSeq).Ok?
    ensures var next := Apply(data, root, SetPolicy(root, p, lastSeq).value);
      && next.Ok?
      && CurrentBranchStore(next.value).Ok?
      && CurrentBranchStore(next.value).value
           == CurrentBranchStore(root).value.(activePolicies := Toggled(CurrentBranchStore(root).value.activePolicies, p))
      && GetGameStore(next.value) == GetGameStore(root)
  {
    var s := CurrentBranchStore(root).value;
    var e := SetPolicy(root, p, lastSeq).value;
    var tl := root.timeline;
    var b := GetBranch(tl, tl.attributes.game.currentBranch).value;
    assert e.body.branch == tl.attributes.game.currentBranch;
    assert tl.stores[b.storeId] == BranchAttributes(s);
    assert WithPolicy(s, p, e.body.state) == s.(activePolicies := Toggled(s.activePolicies, p));
  }

  /** Building and applying the set-policy event twice in a row restores the
      current branch. */
  lemma ToggleTwiceRestores(data: Data, root: Attributes, p: string, n1: nat, n2: nat)
    requires CurrentBranchStore(root).Ok?
    ensures SetPolicy(root, p, n1).Ok?
    ensures var mid := Apply(data, root, SetPolicy(root, p, n1).value);
      && mid.Ok?
      && SetPolicy(mid.value, p, n2).Ok?
      && Apply(data, mid.value, SetPolicy(mid.value, p, n2).value).Ok?
      && CurrentBranchStore(Apply(data, mid.value, SetPolicy(mid.value, p, n2).value).value)
           == CurrentBranchStore(root)
  {
    SetPolicyToggles(data, root, p, n1);
    var mid := Apply(data, root, SetPolicy(root, p, n1).value).value;
    SetPolicyToggles(data, mid, p, n2);
    var s := CurrentBranchStore(root).value;
    assert Toggled(Toggled(s.activePolicies, p), p) == s.activePolicies;
  }

  /** A next-turn event built in a state and applied to it advances the
      current branch by one turn: the weights are rebuilt from the value
      definitions and the active policies, every value is recounted, and the
      active policies stay. It fails exactly when an active policy changes a
      weight of a value that is not defined. */
  lemma NextTurnEffect(data: Data, root: Attributes, lastSeq: nat)
    requires CurrentBranchStore(root).Ok?
    ensures NextTurn(root, lastSeq).Ok?
    ensures var s := CurrentBranchStore(root).value;
            var next := Apply(data, root, NextTurn(root, lastSeq).value);
      && (next.Ok? <==> !WritesUndeclared(data.policies, data.values, s.activePolicies))
      && (next.Ok? ==>
            var weights := CalculateWeightMap(data.policies, data.values, s.activePolicies).value;
            && CurrentBranchStore(next.value).Ok?
            && CurrentBranchStore(next.value).value.turn == s.turn + 1
            && CurrentBranchStore(next.value).value.activePolicies == s.activePolicies
            && CurrentBranchStore(next.value).value.weights == weights
            && CurrentBranchStore(next.value).value.values
                 == Recounted(s.values, data.values, weights, data.policies, s.activePolicies))
  {
    var tl := root.timeline;
    var b := GetBranch(tl, tl.attributes.game.currentBranch).value;
    assert tl.stores[b.storeId] == BranchAttributes(CurrentBranchStore(root).value);
  }

  /** A branch event leaves every other slot as it was. */
  lemma OtherBranchesUntouched(data: Data, root: Attributes, e: Event, i: nat)
    requires IsTimelineEvent(e.body) && Apply(data, root, e).Ok?
    requires GetBranch(root.timeline, e.body.branch).Ok?
    requires i < |root.timeline.stores| && i != GetBranch(root.timeline, e.body.branch).value.storeId
    ensures Apply(data, root, e).value.timeline.stores[i] == root.timeline.stores[i]
  {
  }

  /** After a set-branch event the live view is the store of the target
      branch, and the rewind flag is as it was. */
  lemma SetBranchSwitches(data: Data, root: Attributes, target: EventId, now: nat, lastSeq: nat)
    requires GetGameStore(root).Ok?
    ensures var next := Apply(data, root, SetBranch(target, now, lastSeq));
      && next.Ok?
      && GetGameStore(next.value).value.currentBranch == target
      && GetGameStore(next.value).value.rewind == GetGameStore(root).value.rewind
      && CurrentBranchStore(next.value) ==
           (var b :- GetBranch(root.timeline, target);
            var slot :- SlotAt(root.timeline.stores, b.storeId);
            GetBranchStore(slot))
  {
  }

  /** A windback succeeds exactly when the current branch has a live and a
      rewound slot holding branch stores; the session is then marked rewound
      exactly when the rewound slot the event installs is at another turn than
      the live slot, which the windback leaves as it was. */
  lemma WindbackRewindFlag(data: Data, root: Attributes, e: Event)
    requires e.body.WindbackBody? && root.TimelineAttributes?
    ensures var tl := root.timeline;
            var next := Apply(data, root, e);
      && (next.Ok? <==> SlotsHeld(tl.(rewindStores := e.body.rewindStores)))
      && (next.Ok? ==>
            var sid := GetBranch(tl, tl.attributes.game.currentBranch).value.storeId;
            && next.value.timeline.stores == tl.stores
            && next.value.timeline.rewindStores == e.body.rewindStores
            && GetGameStore(next.value).Ok?
            && (GetGameStore(next.value).value.rewind <==>
                  e.body.rewindStores[sid].branch.turn != tl.stores[sid].branch.turn))
  {
  }

  /** Replaying a log in two pieces gives what replaying it whole gives. */
  lemma {:induction false} ApplyAllAppend(data: Data, root: Attributes, a: seq<Event>, b: seq<Event>)
    ensures ApplyAll(data, root, a + b) == (var mid :- ApplyAll(data, root, a); ApplyAll(data, mid, b))
    decreases |a|
  {
    if |a| == 0 {
      assert a + b == b;
    } else {
      assert (a + b)[0] == a[0];
      assert (a + b)[1..] == a[1..] + b;
      var next := Apply(data, root, a[0]);
      if next.Ok? {
        ApplyAllAppend(data, next.value, a[1..], b);
      }
    }
  }

  predicate AllInterface(events: seq<Event>) {
    forall i | 0 <= i < |events| :: IsInterfaceEvent(events[i].body)
  }

  /** Screen and selection events never touch a branch, the branch list or
      the rewind state: after any sequence of them both views show what they
      showed before. */
  lemma {:induction false} InterfaceEventsKeepStores(data: Data, root: Attributes, events: seq<Event>)
    requires GetGameStore(root).Ok? && AllInterface(events)
    ensures var r := ApplyAll(data, root, events);
      && r.Ok? && r.value.TimelineAttributes?
      && r.value.timeline.(attributes := root.timeline.attributes) == root.timeline
      && GetGameStore(r.value).Ok?
      && GetGameStore(r.value).value.currentBranch == GetGameStore(root).value.currentBranch
      && GetGameStore(r.value).value.rewind == GetGameStore(root).value.rewind
      && CurrentBranchStore(r.value) == CurrentBranchStore(root)
      && RewoundBranchStore(r.value) == RewoundBranchStore(root)
    decreases |events|
  {
    if |events| > 0 {
      assert IsInterfaceEvent(events[0].body);
      var next := Apply(data, root, events[0]).value;
      assert AllInterface(events[1..]) by {
        forall i | 0 <= i < |events[1..]| ensures IsInterfaceEvent(events[1..][i].body) {
          assert events[1..][i] == events[i + 1];
        }
      }
      InterfaceEventsKeepStores(data, next, events[1..]);
    }
  }
}
