# Timeline game core in Dafny

A model of the simulation and timeline core of the `timeline` policy game (package `game`).

A scenario defines three things:
- **values**: named quantities, each with a natural change per turn, optional bounds, and `affected_by` edges from other values;
- **policies**: each with flat amounts per turn, weight changes to edges, and restrictions;
- **win and lose conditions**.

Every turn, the game does two things:
- It rebuilds the **weight map** (the influence graph). Each value gets the edges it declares, plus the weight changes of the active policies.
- It **recounts** every value. The new value is the clamped edge contributions, plus the flat amounts of the active policies, plus the natural change, clamped to the value's bounds.

The game runs on an event-sourced timeline:
- Timeline events are next turn and set policy. Each one changes the live store of the branch it names.
- Game events are set branch, set screen and set selected value. They change the session store.
- A windback installs rewound branch stores. The session is marked as rewound exactly when the current branch's rewound store is at a different turn than its live store.

The timeline panel of the user interface:
- labels every branch `R.i.j…`;
- draws one cell per turn in each branch's row;
- highlights the cell on screen;
- maps a mouse click to a cell.

Modules:
- `Failures`: `Option`, `Result`, and the `Error` kinds. Each kind stands for one Go panic.
- `Definitions`: the scenario definitions. It also holds the Go zero-value reads of missing map keys (`ValueOf`, `PolicyOf`, …).
- `Sums`: sums over a set, taken in any order. Go iterates maps in an unspecified order.
- `Weights` / `WeightLemmas`: `CalculateWeightMap`, in closed form. `WeightMapAnyOrder` proves that the Go loop reaches this closed form whatever order it visits the active policies in.
- `Recount` / `RecountLemmas`: `CalculateAddedValue` and `RecountValues`, both as loops in any order and proved equal to their sum specification.
- `PolicyRules` / `PolicyLemmas`: `ReEvaluatePolicies`.
- `EndGame` / `EndGameLemmas`: `EvaluateGameEndConditions` and `EvaluateGameEndCondition`.
- `Store` / `StoreLemmas`: the game store and the branch store. Also the timeline store of the event library, as far as the game reads it, and the accessors that select the live or the rewound view.
- `Events` / `EventLemmas`: the event kinds and their constructors.
- `Handlers` / `HandlerLemmas`: the event handlers, and the application of events to a session.
- `TimelineView` / `TimelineViewLemmas`: labels, rows, the highlight and hit testing of the timeline panel.

Where the code and the design documentation disagree, the model follows the code:
- The design describes mutual-exclusion groups of policies. The code loads them but never reads them.
- The design says a turn advance re-evaluates policies and then evaluates the end conditions, and that the terminal status is sticky. In the code, `NextTurnHandler` does neither, and nothing assigns `GameOver`. `ReEvaluatePolicies` and `EvaluateGameEndConditions` are modelled on their own.
- `game/handler.go:32` calls `RecountValues` with four arguments, but the function takes five (`game/game.go:166`). The model passes the scenario's value definitions as the missing `valueData`.
- `GetGameStore` in `game/store.go:61` ignores a failed type assertion and returns nil. Every caller dereferences that nil, so the model reports `NotGameStore` there.

## Model

| member | source | states |
|---|---|---|
| Store.NewBranchStore | game/store.go:39-46 | a new branch starts with the given values, no active policy, turn 0, not over |
| Store.SetBranchId | game/store.go:29-37 | after setting the id, reading it gives that id, and no other field changes |
| Store.GetBranchStore | game/store.go:48-54 | succeeds exactly on a slot holding a branch store, and fails with NotBranchStore otherwise |
| Store.GetTimelineStore | game/game.go:253-259 | succeeds exactly when the root slot holds the timeline store, and then returns that store |
| Store.GetGameStore | game/store.go:56-63 | succeeds exactly when the root holds a timeline store whose attributes are the game store, and returns that store |
| Store.GetBranch | game/game.go:270-276 | a branch lookup succeeds exactly when the id is registered and its index lies in the branch list; an unregistered id fails with UnknownBranch |
| Store.CurrentBranchStore | game/game.go:270-284 | succeeds exactly when the game store exists, the current branch is known and its live slot holds a branch store, and returns that store |
| Store.RewoundStore | game/game.go:295-309 | succeeds exactly when the current branch is known and its slot exists in the list being shown; returns the rewound slot while rewound and the live slot otherwise |
| Store.RewoundBranchStore | game/game.go:286-293 | succeeds exactly when the displayed slot holds a branch store, and returns that store |
| StoreLemmas.OutcomesDistinct | game/store.go:9-10 | the codes for game on, won and lost are pairwise different |
| StoreLemmas.RewoundStoreSelects | game/game.go:295-309 | the displayed slot is the rewound slot while rewound and the live slot otherwise; an unknown current branch is an error |
| StoreLemmas.LiveViewWhenNotRewound | game/game.go:270-309 | without rewind, the displayed branch store is the live branch store |
| Events.TypeTag | game/event.go:10-16 | every game event kind has a type name; only the library's windback has none |
| Events.BasicEvent | game/event.go:18-23 | a game event's id is the clock plus the next sequence number, and its time is the clock |
| Events.NextTurn | game/event.go:34-46 | built exactly when the current branch store exists; addressed to the current branch; id time is the branch's turn; event time is one turn later |
| Events.SetPolicy | game/event.go:58-75 | built exactly when the current branch store exists; its state switches the policy on iff it is not active; timed at the branch's turn |
| Events.SetBranch | game/event.go:88-94 | carries the target branch and is stamped with the clock and the next sequence number |
| Events.SetScreen | game/event.go:105-111 | carries the screen and is stamped with the clock and the next sequence number |
| Events.SetSelectedValue | game/event.go:122-128 | carries the value and is stamped with the clock and the next sequence number |
| EventLemmas.TypeTagsDistinct | game/event.go:10-16 | equal type names imply equal event kinds |
| EventLemmas.NextTurnAfterSetPolicy | game/event.go:34-75 | in one state, next turn is timed one turn after set policy, and the two share an id |
| Handlers.WithPolicy | game/handler.go:20-25 | after the event, the policy is active iff its state is true; every other policy and field keeps its value |
| Handlers.SetPolicyHandler | game/handler.go:13-26 | fails exactly on a slot without a branch store; otherwise the policy is active iff state is true |
| Handlers.TurnAdvanced | game/handler.go:28-36 | a turn fails exactly when an active policy changes a weight of an undeclared value; otherwise the turn goes up by one, the policies, game-over code and id stay, and the weights cover every declared value |
| Handlers.ComputeWeightMap | game/game.go:91-113 | the Go loop over the active policies, in the order it lists them, yields the closed-form weight map |
| Handlers.NextTurnHandler | game/handler.go:28-36 | the handler succeeds exactly when the slot holds a branch store and the turn succeeds, and then stores the advanced branch |
| Handlers.SetBranchHandler | game/handler.go:38-45 | only the session's current branch changes, to the target |
| Handlers.SetScreenHandler | game/handler.go:47-54 | only the session's current screen changes |
| Handlers.SetSelectedValueHandler | game/handler.go:56-63 | only the session's selected value changes |
| Handlers.SameTime | game/handler.go:80-97 | succeeds exactly when the current branch is known and both its live and rewound slots hold branch stores; then true iff the two are at the same turn |
| Handlers.WindbackHandler | game/handler.go:65-78 | fails on a root without a timeline store; otherwise succeeds exactly when, with the rewound stores installed, both slots of the current branch hold branch stores; then the session is rewound iff the rewound turn differs from the live turn, and only the rewind flag and the rewound stores change |
| Handlers.RouteToBranch | game/game.go:240-241 | a timeline event succeeds exactly when its branch is known, its slot exists and the branch handler succeeds there; only that slot is replaced |
| Handlers.Apply | game/game.go:234-241 | each event kind goes to its registered handler: timeline events change only a branch slot, interface events only the session, windback only the rewound stores and the session; branches and the branch index never change |
| Handlers.ApplyAll | game/game.go:243-249 | no events leave the root as it is; events on a root without a timeline store fail; success keeps the branches and the branch index |
| HandlerLemmas.ApplyAllAppend | game/game.go:243-249 | replaying a log in two pieces is replaying the first and then the second from its result, with the first error stopping the replay |
| HandlerLemmas.SetPolicyToggles | game/handler.go:13-26 | building a set-policy event and applying it flips that policy in the current branch and changes nothing else |
| HandlerLemmas.ToggleTwiceRestores | game/event.go:58-75 | setting the same policy twice restores the current branch |
| HandlerLemmas.NextTurnEffect | game/handler.go:28-36 | next turn advances the current branch by one turn, rebuilds its weights, recounts its values and keeps its policies; it fails exactly on a write to an undeclared value |
| HandlerLemmas.OtherBranchesUntouched | game/handler.go:13-36 | a timeline event leaves every other branch's slot unchanged |
| HandlerLemmas.SetBranchSwitches | game/handler.go:38-45 | after set branch, the live view is the target branch's store and the rewind flag is kept |
| HandlerLemmas.WindbackRewindFlag | game/handler.go:65-78 | a dispatched windback succeeds exactly when the installed rewound stores and the live stores both hold the current branch; then the live stores are kept, the carried rewound stores are installed, and the session is rewound iff the carried turn differs from the live turn |
| HandlerLemmas.InterfaceEventsKeepStores | game/handler.go:47-63 | any sequence of screen and selection events leaves the branches, the current branch and both views unchanged |
| Weights.LastIndex | game/game.go:94-101 | finds the last `affected_by` entry naming a source, or reports that there is none |
| Weights.DeclaredEdges | game/game.go:94-101 | a value's edges are exactly the sources it names; a later entry for a source overrides an earlier one |
| Weights.CalculateWeightMap | game/game.go:91-113 | fails exactly when an active policy writes into an undeclared value; otherwise it has one row per declared value |
| Weights.AddChange | game/game.go:104-109 | one change fails exactly on an undeclared value; otherwise the rows stay, the edge exists afterwards and its weight grows by the delta with its clamps kept |
| Weights.ApplyChanges | game/game.go:104-109 | no changes leave the map as it is; applied changes never add or remove a row |
| Weights.LoopDeltas | game/game.go:103-110 | no policies leave the map as it is; the loop over the active policies never adds or removes a row |
| WeightLemmas.DeltaSumAdditive | game/game.go:103-110 | each extra active policy adds its own deltas to an edge |
| WeightLemmas.DeltaSumUntouched | game/game.go:103-110 | an edge that no active policy changes gets no delta |
| WeightLemmas.WeightMapWithoutPolicies | game/game.go:91-102 | with no active policy, each value has exactly the edges it declares |
| WeightLemmas.ApplyChangesFails | game/game.go:104-109 | one policy's changes fail exactly when one of them names an undeclared value, and never add rows |
| WeightLemmas.ApplyChangesEffect | game/game.go:104-109 | each changed edge gains the sum of its deltas, starting from weight 0 when absent |
| WeightLemmas.WeightMapStep | game/game.go:103-110 | activating one more policy is the same as running its changes over the map of the others |
| WeightLemmas.WeightMapAnyOrder | game/game.go:91-113 | visiting the active policies in any order gives the same weight map |
| WeightLemmas.WeightMapEdge | game/game.go:91-113 | an edge exists iff declared or changed; it has the declared weight and clamps plus the deltas, or weight 0 and no clamps |
| Recount.ClampEdge | game/game.go:191-197 | an edge contribution is at least its min, at most its max when the clamps do not cross, unchanged inside them, and the min wins when they cross; a product above the max becomes exactly the max (unless the clamps cross), and one below the min exactly the min |
| Recount.ClampValue | game/game.go:172-178 | a new value is at most its max, at least its min when the bounds do not cross, unchanged inside them, and the max wins when they cross; a value above the max becomes exactly the max, and one below the min exactly the min (unless the bounds cross) |
| Recount.FlatAmount | game/game.go:201-207 | a policy without a flat entry for the key gives it nothing |
| Recount.SumEdges | game/game.go:188-199 | the edge loop sums every edge's clamped contribution into the key, in any order |
| Recount.SumFlat | game/game.go:201-207 | the inner loop adds up the flat amounts for the key |
| Recount.SumPolicies | game/game.go:200-208 | the policy loop sums the flat amounts of every active policy, in any order |
| Recount.CalculateAddedValue | game/game.go:185-210 | the added value is the edge sum plus the flat sum |
| Recount.RecountOne | game/game.go:170-180 | one value: old value plus added value plus natural change, then clamped |
| Recount.RecountLoop | game/game.go:166-183 | the loop, in any order, computes every value from the previous turn's values |
| Recount.RecountValues | game/game.go:166-183 | the new value map is the recount of every value from the old map |
| RecountLemmas.RecountedAt | game/game.go:169-180 | each new value is its old value plus edge and flat sums plus natural change, clamped |
| RecountLemmas.RecountWithinBounds | game/game.go:172-178 | every recounted value lies within its definition's bounds |
| RecountLemmas.RecountUndefined | game/game.go:170-172 | a value without a definition has no natural change and no bounds |
| RecountLemmas.FlatSumInsert | game/game.go:200-208 | activating a policy adds its flat amount for the key |
| RecountLemmas.FlatSumIgnoresOthers | game/game.go:200-208 | policies without flat entries for the key give it nothing |
| RecountLemmas.RecountedIdle | game/game.go:166-210 | a value with an empty or missing edge row and no flat amounts only takes its natural change, then the clamp |
| RecountLemmas.SingleEdgeExample | game/game.go:188-199 | value 10, one edge from 50 with multiplier 0.1: the next value is 15 |
| PolicyRules.CollectViolations | game/game.go:118-122 | the policy is marked for removal iff one of its restrictions is violated, and nothing else is added |
| PolicyRules.ReEvaluatePolicies | game/game.go:115-134 | keeps exactly the active policies whose restrictions all hold; a missing value reads as 0 |
| PolicyRules.Kept | game/game.go:115-134 | the kept policies are active ones, and each of them meets every restriction it has |
| PolicyLemmas.UnrestrictedKept | game/game.go:115-134 | a policy without restrictions is never dropped |
| PolicyLemmas.ViolatedDropped | game/game.go:118-122 | a single violated restriction drops the policy |
| PolicyLemmas.KeptIdempotent | game/game.go:115-134 | re-evaluating twice against the same values drops nothing more |
| PolicyLemmas.KeptUnion | game/game.go:115-134 | re-evaluation treats each policy on its own |
| EndGame.Observed | game/game.go:147-156 | "turn" reads the turn counter; any other name reads its value, and a missing value is an error |
| EndGame.EvaluateGameEndCondition | game/game.go:146-164 | a nil condition fails; otherwise the result is true iff "+" is at or above the threshold or "-" is at or below it |
| EndGame.EvaluateGameEndConditions | game/game.go:136-144 | won iff the win condition holds; lost iff only the lose condition holds; otherwise the game goes on |
| EndGameLemmas.ThresholdInclusive | game/game.go:157-162 | a value exactly at the threshold fires under both signs |
| EndGameLemmas.OtherSignNeverFires | game/game.go:157-163 | a sign other than "+" or "-" never fires |
| EndGameLemmas.WinBeatsLose | game/game.go:136-144 | when both conditions hold, the game is won |
| EndGameLemmas.TurnConditionStays | game/game.go:146-164 | a "+" turn condition keeps firing on later turns |
| TimelineView.PassStep | game/gui.go:324-333 | one iteration of the numbering pass fails exactly when a non-root branch's dictionary read is out of range |
| TimelineView.NumberingPassOk | game/gui.go:324-333 | the numbering pass gets through exactly when every dictionary read stays in range |
| TimelineView.NumberingPassCounts | game/gui.go:324-333 | on a well-formed list, each counter holds its branch's child count and each branch holds its sibling index |
| TimelineView.PassStepCounts | game/gui.go:328-332 | one iteration keeps the counters and sibling numbers right |
| TimelineView.CountStep | game/gui.go:328-331 | counting a sub-branch raises only its parent's counter |
| TimelineView.RootStep | game/gui.go:325-327 | a root branch is skipped |
| TimelineView.SubBranchNumbers | game/gui.go:317-333 | the first pass succeeds exactly when its reads stay in range, and yields the sibling numbers |
| TimelineView.WellFormedReadsInRange | game/gui.go:328-329 | on a well-formed branch list, the pass never reads out of range |
| TimelineView.Decimal | game/gui.go:348 | `%d` prints at least one digit, only digits, with a leading zero only for 0, and the digits read back as the number |
| TimelineView.Label | game/gui.go:336-349 | every label starts with "R", and is exactly "R" for a root |
| TimelineView.RecLabel | game/gui.go:336-349 | recFunc: a label starts with "R"; a label is returned only where Go's lookups stop within the fuel, and `BranchCycle` only where they have not stopped when the fuel runs out |
| TimelineViewLemmas.RecLabelFuelSuffices | game/gui.go:336-349 | with one more fuel than there are branches, `BranchCycle` is returned only where Go's lookups go on forever, because some list entry is found twice |
| TimelineView.RecLabelIsLabel | game/gui.go:336-349 | on a well-formed list, the recursive label function yields the parent's label, a dot and the sibling number |
| TimelineView.BranchLabels | game/gui.go:335-352 | gives one label per branch in list order, and never fails on a well-formed list |
| TimelineView.RowCells | game/gui.go:396-415 | succeeds exactly when the branch has a live store and, if the row is not empty, the game store exists and, for the current branch, the displayed store too; a row has one cell per turn from its start to its live turn; a cell is highlighted iff it is the current branch at the displayed turn |
| TimelineView.MaxLastEventTime | game/gui.go:426-431 | the latest last-event time of any branch, or 0 when there are none |
| TimelineView.ScanCells | game/gui.go:432-452 | reports the first cell in scan order that contains the mouse, or nothing iff no scanned cell contains it |
| TimelineView.CheckMouse | game/gui.go:424-453 | hit testing as written: reports a cell under the 38.5 spacing, or nothing iff none contains the mouse |
| TimelineView.CheckMouseAligned | game/gui.go:424-453 | hit testing with cells placed where they are drawn: a click inside any scanned drawn cell reports exactly that cell |
| TimelineViewLemmas.DecimalInjective | game/gui.go:348 | different numbers print differently, because each printed number reads back as itself |
| TimelineViewLemmas.DecimalHasNoDot | game/gui.go:348 | a printed number contains no dot |
| TimelineViewLemmas.SplitAtLastDot | game/gui.go:348 | the last dot of a label splits it back into the parent's label and the number |
| TimelineViewLemmas.ChildrenMonotone | game/gui.go:330-331 | the child count never drops as the pass goes on |
| TimelineViewLemmas.SiblingsNumberedApart | game/gui.go:330-332 | of two sub-branches of one parent, the later one gets the larger number |
| TimelineViewLemmas.LabelsDistinct | game/gui.go:335-352 | with a single root, no two branches share a label |
| TimelineViewLemmas.TwoRootsClash | game/gui.go:342-344 | two roots are both labelled "R" |
| TimelineViewLemmas.HighlightOnce | game/gui.go:404-408 | a row highlights at most one cell, and only in the current branch's row |
| TimelineViewLemmas.HighlightShown | game/gui.go:404-408 | the current branch's row highlights the displayed turn when that turn lies in the row |
| TimelineViewLemmas.InsideRectInclusive | game/gui.go:455-463 | every point on the four edges of the hit box is inside it, and every point beyond an edge is not |
| TimelineViewLemmas.ClickMissesDrawnCell | game/gui.go:437-445 | a click inside a drawn cell can miss every hit box |
| TimelineViewLemmas.DrawnCellSelected | game/gui.go:409-413 | with the drawing spacing, a click inside a scanned cell hits exactly that cell |

## Left out

- Printing, fonts, text atlases, colours and drawing calls of the timeline panel are not modelled. Neither are the header time labels (`game/gui.go:354-393`) or the label positions.
- The event library is not part of this model:
  - its event log and dispatcher;
  - the creation of branches and branch stores;
  - id generation;
  - the reconstruction of rewound stores on windback.

  Routing a timeline event to the live slot of the branch it names is modelled as the library's behaviour (`Handlers.RouteToBranch`). The windback event carries the rewound stores as a parameter.
- The wall clock (`time.Now`) and the sequence number of the dispatcher's last event are parameters of the event constructors.
- `float64` arithmetic is modelled as exact `real` arithmetic, so rounding is not modelled. `uint64` turns are `nat`; wrap-around after 2^64 turns is not modelled. The same holds for the event sequence number `lastID+1` (`game/event.go:19-21`, `37-39`, `66-71`), modelled as `lastSeq + 1` on `nat`, so the wrap of the largest `uint64` id part back to 0 is not modelled. `uint8` game-over codes are `nat`.
- Mutual exclusion of policies is not modelled, because the code never reads the loaded groups.
- Handlers.NextTurnHandler: does not re-evaluate policies or the end conditions, because the code does not. `GameOver` is never written.
- TimelineView.RecLabel: a `fuel` bound of one more than the branch count stands in for Go's unbounded recursion. Where Go recurses forever, the model returns `BranchCycle` instead (`RecLabelFuelSuffices`). Where Go panics, the model returns the lookup's error.
- TimelineView.BranchLabels: assumes the event library's `WellFormed` branch list for its label contents. On other lists it states only the length and, through `SubBranchNumbers`, when the pass fails.
- TimelineViewLemmas.LabelsDistinct: assumes a single root. `TwoRootsClash` shows that this assumption is needed.
- Handlers.WindbackHandler: states how the session changes, not how the library rebuilds the rewound stores.
- Game setup (`NewGame`), reading the stored event log, loading the definition files, the database, and the other screens are not part of this model. The replay of `Restore` itself is modelled as `Handlers.ApplyAll` over a given list of events.

## Findings

| source | as written | input that shows it | evidently intended | confidence | as-written member | corrected member |
|---|---|---|---|---|---|---|
| game/gui.go:437-445 | hit testing places cell `i` at x = 38.5·i + 18, but drawing places it at 38.45·i + 18 (game/gui.go:409) | panel at (0, 0), one root branch at turn 20 with last event at turn 20; a click at (787, −15) is inside the drawn cell of turn 20 (x 787–817) and inside no hit box (turn 19 ends at 779.5, turn 20 starts at 788) | a click hits the cell that is drawn under it | not executed | TimelineViewLemmas.ClickMissesDrawnCell | TimelineView.CheckMouseAligned |
