/** The game's events and the functions that build them (game/event.go).
    Timeline events (next turn, set policy) are addressed to a branch and
    stamped with the branch's turn; game events (set branch, set screen, set
    selected value) are stamped with the wall clock, which is a parameter here.
    The last event's sequence number, read from the library's dispatcher, is a
    parameter as well. */
module Events {
  import opened Failures
  import opened Store

  /** What an event carries. The windback event belongs to the event library;
      it carries the rewound branch stores the library reconstructs. */
  datatype EventBody =
    | NextTurnBody(branch: EventId)
    | SetPolicyBody(branch: EventId, policy: string, state: bool)
    | SetBranchBody(target: EventId)
    | SetScreenBody(screen: string)
    | SetSelectedValueBody(value: string)
    | WindbackBody(rewindStores: seq<Attributes>)

  datatype Event = Event(id: EventId, time: nat, body: EventBody)

  /** Events applied to one branch's store rather than to the session. */
  predicate IsTimelineEvent(b: EventBody) {
    b.NextTurnBody? || b.SetPolicyBody?
  }

  /** Events that only change what the interface shows. */
  predicate IsInterfaceEvent(b: EventBody) {
    b.SetScreenBody? || b.SetSelectedValueBody?
  }

  /** The type names of game/event.go:10-16; the windback event's name is the
      library's and is not part of this model. */
  function TypeTag(b: EventBody): (t: Option<string>)
    ensures t.None? <==> b.WindbackBody?
  {
    match b
    case NextTurnBody(_) => Some("next_turn")
    case SetPolicyBody(_, _, _) => Some("set_policy")
    case SetBranchBody(_) => Some("set_branch")
    case SetScreenBody(_) => Some("set_screen")
    case SetSelectedValueBody(_) => Some("set_selected_value")
    case WindbackBody(_) => None
  }

  /** SetBasicEventValues: the id takes the clock as its time part and the
      next sequence number; the event time is the clock. */
  function BasicEvent(body: EventBody, now: nat, lastSeq: nat): (e: Event)
    ensures e.id == EventId(now, lastSeq + 1) && e.time == now && e.body == body
  {
    Event(EventId(now, lastSeq + 1), now, body)
  }

  /** NextTurn: addressed to the current branch, identified by its turn and
      timed one turn later. */
  function NextTurn(root: Attributes, lastSeq: nat): (r: Result<Event>)
    ensures r.Ok? <==> CurrentBranchStore(root).Ok?
    ensures r.Ok? ==>
      && r.value.body == NextTurnBody(GetGameStore(root).value.currentBranch)
      && r.value.id == EventId(CurrentBranchStore(root).value.turn, lastSeq + 1)
      && r.value.time == CurrentBranchStore(root).value.turn + 1
  {
    var game :- GetGameStore(root);
    var store :- CurrentBranchStore(root);
    Ok(Event(EventId(store.turn, lastSeq + 1), store.turn + 1, NextTurnBody(game.currentBranch)))
  }

  /** SetPolicy: the event switches the policy on when the current branch does
      not have it active and off when it does. It is timed at the branch's
      current turn. */
  function SetPolicy(root: Attributes, policy: string, lastSeq: nat): (r: Result<Event>)
    ensures r.Ok? <==> CurrentBranchStore(root).Ok?
    ensures r.Ok? ==> r.value.body.SetPolicyBody? && r.value.body.policy == policy
    ensures r.Ok? ==> (r.value.body.state <==> policy !in CurrentBranchStore(root).value.activePolicies)
    ensures r.Ok? ==> r.value.body.branch == GetGameStore(root).value.currentBranch
    ensures r.Ok? ==>
      r.value.time == CurrentBranchStore(root).value.turn && r.value.id == EventId(r.value.time, lastSeq + 1)
  {
    var game :- GetGameStore(root);
    var store :- CurrentBranchStore(root);
    var state := policy !in store.activePolicies;
    Ok(Event(EventId(store.turn, lastSeq + 1), store.turn, SetPolicyBody(game.currentBranch, policy, state)))
  }

  function SetBranch(target: EventId, now: nat, lastSeq: nat): (e: Event)
    ensures e.body == SetBranchBody(target) && e.time == now && e.id == EventId(now, lastSeq + 1)
  {
    BasicEvent(SetBranchBody(target), now, lastSeq)
  }

  function SetScreen(screen: string, now: nat, lastSeq: nat): (e: Event)
    ensures e.body == SetScreenBody(screen) && e.time == now && e.id == EventId(now, lastSeq + 1)
  {
    BasicEvent(SetScreenBody(screen), now, lastSeq)
  }

  function SetSelectedValue(value: string, now: nat, lastSeq: nat): (e: Event)
    ensures e.body == SetSelectedValueBody(value) && e.time == now && e.id == EventId(now, lastSeq + 1)
  {
    BasicEvent(SetSelectedValueBody(value), now, lastSeq)
  }
}

module EventLemmas {
  import opened Failures
  import opened Store
  import opened Events

  /** The type names tell the kinds apart: two events with the same name are
      of the same kind. */
  lemma TypeTagsDistinct(a: EventBody, b: EventBody)
    requires TypeTag(a).Some? && TypeTag(a) == TypeTag(b)
    ensures a.NextTurnBody? == b.NextTurnBody? && a.SetPolicyBody? == b.SetPolicyBody?
    ensures a.SetBranchBody? == b.SetBranchBody? && a.SetScreenBody? == b.SetScreenBody?
    ensures a.SetSelectedValueBody? == b.SetSelectedValueBody?
  {
    assert |"next_turn"| == 9 && |"set_policy"| == 10 && |"set_branch"| == 10;
    assert |"set_screen"| == 10 && |"set_selected_value"| == 18;
    assert "set_policy"[4] == 'p' && "set_branch"[4] == 'b' && "set_screen"[4] == 's';
  }

  /** In one state, a next-turn event is timed one turn after a set-policy
      event, and both carry the same id time part: policies set during a turn
      take effect before the turn ends. */
  lemma NextTurnAfterSetPolicy(root: Attributes, policy: string, lastSeq: nat)
    requires CurrentBranchStore(root).Ok?
    ensures SetPolicy(root, policy, lastSeq).Ok? && NextTurn(root, lastSeq).Ok?
    ensures NextTurn(root, lastSeq).value.time == SetPolicy(root, policy, lastSeq).value.time + 1
    ensures NextTurn(root, lastSeq).value.id == SetPolicy(root, policy, lastSeq).value.id
  {
  }
}
