/** The session state (game/store.go) and the timeline store of the event
    library it lives in, with the accessors of game/store.go:48-63 and
    game/game.go:253-309. The event library itself is not part of this model;
    its timeline store is represented by the fields the game code reads. */
module Store {
  import opened Failures
  import opened Definitions

  /** An event id of the library: a time part and a sequence part. */
  datatype EventId = EventId(time: nat, seqNo: nat)
  const ZeroId := EventId(0, 0)

  /** The "game over" codes of game/store.go:9-10; 0 means the game goes on. */
  const NotOver: nat := 0
  const GameWon: nat := 1
  const GameLost: nat := 2

  /** The session-wide store. */
  datatype GameStore = GameStore(
    currentBranch: EventId,
    lastEventId: nat,
    currentScreen: string,
    selectedValue: string,
    rewind: bool)

  /** The state of one branch. */
  datatype BranchStore = BranchStore(
    branchId: EventId,
    values: ValueMap,
    weights: WeightMap,
    gameOver: nat,
    activePolicies: set<string>,
    turn: nat)

  /** A branch record of the library's timeline store. */
  datatype Branch = Branch(
    branchId: EventId,
    prevBranch: EventId,
    prevBranchLastEvent: EventId,
    creationTime: nat,
    storeId: nat,
    lastEventTime: nat)

  /** What a store slot holds (the library's `Store.Attributes`). */
  datatype Attributes =
    | NoAttributes
    | BranchAttributes(branch: BranchStore)
    | GameAttributes(game: GameStore)
    | TimelineAttributes(timeline: Timeline)

  /** The library's timeline store: the branch list, the index of each branch
      id in that list, the live and the rewound slot of every branch, and the
      session attributes. */
  datatype Timeline = Timeline(
    branches: seq<Branch>,
    dictionary: map<EventId, nat>,
    stores: seq<Attributes>,
    rewindStores: seq<Attributes>,
    attributes: Attributes)

  /** The store a new branch starts from (NewBranchStoreFunc). */
  function NewBranchStore(startValues: ValueMap): (s: BranchStore)
    ensures s.activePolicies == {} && s.values == startValues
    ensures s.turn == 0 && s.gameOver == NotOver && s.branchId == ZeroId
  {
    BranchStore(ZeroId, startValues, map[], 0, {}, 0)
  }

  function GetBranchId(s: BranchStore): EventId {
    s.branchId
  }

  function SetBranchId(s: BranchStore, id: EventId): (r: BranchStore)
    ensures GetBranchId(r) == id
    ensures r.(branchId := s.branchId) == s
  {
    s.(branchId := id)
  }

  /** GetBranchStore: the slot must hold a branch store. */
  function GetBranchStore(s: Attributes): (r: Result<BranchStore>)
    ensures r.Ok? <==> s.BranchAttributes?
    ensures r.Ok? ==> r.value == s.branch
    ensures r.Err? ==> r.error == NotBranchStore
  {
    if s.BranchAttributes? then Ok(s.branch) else Err(NotBranchStore)
  }

  /** GetTimeLineStore: the root slot must hold the timeline store. */
  function GetTimelineStore(root: Attributes): (r: Result<Timeline>)
    ensures r.Ok? <==> root.TimelineAttributes?
    ensures r.Ok? ==> r.value == root.timeline
    ensures r.Err? ==> r.error == NotTimelineStore
  {
    if root.TimelineAttributes? then Ok(root.timeline) else Err(NotTimelineStore)
  }

  /** GetGameStore: the root slot must hold the timeline store, whose own
      attributes must be the game store. In game/store.go:61 the second test
      is not checked and a nil store comes back; every caller then
      dereferences it, so the model fails there. */
  function GetGameStore(root: Attributes): (r: Result<GameStore>)
    ensures r.Ok? <==> root.TimelineAttributes? && root.timeline.attributes.GameAttributes?
    ensures r.Ok? ==> r.value == root.timeline.attributes.game
    ensures !root.TimelineAttributes? ==> r == Err(NotTimelineStore)
  {
    var tl :- GetTimelineStore(root);
    if tl.attributes.GameAttributes? then Ok(tl.attributes.game) else Err(NotGameStore)
  }

  /** The library's GetBranch: the id must be registered, and its index must
      lie inside the branch list. */
  function GetBranch(tl: Timeline, id: EventId): (r: Result<Branch>)
    ensures r.Ok? <==> id in tl.dictionary && tl.dictionary[id] < |tl.branches|
    ensures r.Ok? ==> r.value == tl.branches[tl.dictionary[id]]
    ensures id !in tl.dictionary ==> r == Err(UnknownBranch)
  {
    if id !in tl.dictionary then Err(UnknownBranch)
    else if tl.dictionary[id] < |tl.branches| then Ok(tl.branches[tl.dictionary[id]])
    else Err(SlotOutOfRange)
  }

  /** Slot `i` of a slot list; Go indexes out of range with a panic. */
  function SlotAt(slots: seq<Attributes>, i: nat): (r: Result<Attributes>)
    ensures r.Ok? <==> i < |slots|
    ensures r.Ok? ==> r.value == slots[i]
  {
    if i < |slots| then Ok(slots[i]) else Err(SlotOutOfRange)
  }

  /** The live branch store of the current branch (GetCurrentBranchStore):
      the session store must exist, the current branch must be registered, and
      its live slot must exist and hold a branch store. */
  function CurrentBranchStore(root: Attributes): (r: Result<BranchStore>)
    ensures r.Ok? <==>
      && GetGameStore(root).Ok?
      && GetBranch(root.timeline, root.timeline.attributes.game.currentBranch).Ok?
      && var sid := GetBranch(root.timeline, root.timeline.attributes.game.currentBranch).value.storeId;
         sid < |root.timeline.stores| && root.timeline.stores[sid].BranchAttributes?
    ensures r.Ok? ==>
      var sid := GetBranch(root.timeline, root.timeline.attributes.game.currentBranch).value.storeId;
      r.value == root.timeline.stores[sid].branch
  {
    var tl :- GetTimelineStore(root);
    var game :- GetGameStore(root);
    var branch :- GetBranch(tl, game.currentBranch);
    var slot :- SlotAt(tl.stores, branch.storeId);
    GetBranchStore(slot)
  }

  /** The slot the screens display (GetRewindedStore): the current branch's
      rewound slot while the session is rewound, its live slot otherwise. */
  function RewoundStore(root: Attributes): (r: Result<Attributes>)
    ensures r.Ok? <==>
      && GetGameStore(root).Ok?
      && GetBranch(root.timeline, root.timeline.attributes.game.currentBranch).Ok?
      && var sid := GetBranch(root.timeline, root.timeline.attributes.game.currentBranch).value.storeId;
         && sid < |root.timeline.stores|
         && (root.timeline.attributes.game.rewind ==> sid < |root.timeline.rewindStores|)
    ensures r.Ok? ==>
      var sid := GetBranch(root.timeline, root.timeline.attributes.game.currentBranch).value.storeId;
      r.value == if root.timeline.attributes.game.rewind then root.timeline.rewindStores[sid]
                 else root.timeline.stores[sid]
  {
    var tl :- GetTimelineStore(root);
    var game :- GetGameStore(root);
    var branch :- GetBranch(tl, game.currentBranch);
    var slot :- SlotAt(tl.stores, branch.storeId);
    if game.rewind then SlotAt(tl.rewindStores, branch.storeId) else Ok(slot)
  }

  /** GetRewindedBranchStore: the displayed slot must hold a branch store. */
  function RewoundBranchStore(root: Attributes): (r: Result<BranchStore>)
    ensures r.Ok? <==> RewoundStore(root).Ok? && RewoundStore(root).value.BranchAttributes?
    ensures r.Ok? ==> r.value == RewoundStore(root).value.branch
  {
    var slot :- RewoundStore(root);
    GetBranchStore(slot)
  }

  /** The root slot with its session store replaced; the root must hold the
      timeline store. */
  function PutGameStore(root: Attributes, game: GameStore): (r: Attributes)
    requires root.TimelineAttributes?
    ensures r.TimelineAttributes? && GetGameStore(r) == Ok(game)
    ensures r.timeline.(attributes := root.timeline.attributes) == root.timeline
  {
    TimelineAttributes(root.timeline.(attributes := GameAttributes(game)))
  }
}

module StoreLemmas {
  import opened Failures
  import opened Definitions
  import opened Store

  /** The three outcome codes are pairwise distinct. */
  lemma OutcomesDistinct()
    ensures NotOver != GameWon && NotOver != GameLost && GameWon != GameLost
  {
  }

  /** The displayed slot is the rewound slot of the current branch exactly
      when the session is rewound, and its live slot otherwise; an unknown
      current branch is an error. */
  lemma RewoundStoreSelects(root: Attributes)
    requires root.TimelineAttributes? && root.timeline.attributes.GameAttributes?
    ensures var tl := root.timeline;
            var game := tl.attributes.game;
      && (game.currentBranch !in tl.dictionary ==> RewoundStore(root) == Err(UnknownBranch))
      && (GetBranch(tl, game.currentBranch).Ok? ==>
            var sid := GetBranch(tl, game.currentBranch).value.storeId;
            && (!game.rewind && sid < |tl.stores| ==> RewoundStore(root) == Ok(tl.stores[sid]))
            && (game.rewind && sid < |tl.stores| && sid < |tl.rewindStores| ==>
                  RewoundStore(root) == Ok(tl.rewindStores[sid])))
  {
  }

  /** Without rewind, the displayed branch store is the live one. */
  lemma LiveViewWhenNotRewound(root: Attributes)
    requires GetGameStore(root).Ok? && !GetGameStore(root).value.rewind
    ensures RewoundBranchStore(root) == CurrentBranchStore(root)
  {
  }
}
