/** The timeline panel (GuiTimeLine, game/gui.go:317-463): the side labels
    naming every branch, the cells drawn in each branch's row, the highlighted
    cell, and which cell a mouse click selects. Drawing itself, fonts and
    colours are not modelled; positions are exact reals. */
module TimelineView {
  import opened Failures
  import opened Store

  // ---------------------------------------------------------------------
  // Branch numbering and labels (game/gui.go:317-352)

  /** Only the first branch is a root. */
  predicate SingleRoot(tl: Timeline) {
    forall i | 0 < i < |tl.branches| :: tl.branches[i].prevBranch != ZeroId
  }

  /** What the event library keeps true of its branch list: every branch is
      registered at its own position, the dictionary holds nothing else, no
      branch uses the zero id, and a branch's parent sits at an earlier
      position. */
  predicate WellFormed(tl: Timeline) {
    && (forall i | 0 <= i < |tl.branches| :: tl.branches[i].branchId != ZeroId)
    && (forall i | 0 <= i < |tl.branches| ::
          tl.branches[i].branchId in tl.dictionary && tl.dictionary[tl.branches[i].branchId] == i)
    && (forall id {:trigger id in tl.dictionary} | id in tl.dictionary ::
          tl.dictionary[id] < |tl.branches| && tl.branches[tl.dictionary[id]].branchId == id)
    && (forall i | 0 <= i < |tl.branches| && tl.branches[i].prevBranch != ZeroId ::
          tl.branches[i].prevBranch in tl.dictionary && tl.dictionary[tl.branches[i].prevBranch] < i)
  }

  /** A dictionary read; Go yields 0 for a missing key. */
  function IndexOf(dictionary: map<EventId, nat>, id: EventId): nat {
    if id in dictionary then dictionary[id] else 0
  }

  /** How many branches of `bs` hang off `parent` (roots hang off nothing). */
  function Children(bs: seq<Branch>, parent: EventId): nat
    decreases |bs|
  {
    if |bs| == 0 then 0
    else
      var b := bs[|bs| - 1];
      Children(bs[..|bs| - 1], parent) + (if b.prevBranch != ZeroId && b.prevBranch == parent then 1 else 0)
  }

  /** The number of branch `i` among its siblings: how many earlier branches
      share its parent. */
  function SiblingIndex(bs: seq<Branch>, i: nat): nat
    requires i < |bs|
  {
    Children(bs[..i], bs[i].prevBranch)
  }

  /** Every dictionary read of the numbering pass lands inside the slices. */
  predicate NumberingInRange(tl: Timeline) {
    ReadsInRange(tl, |tl.branches|)
  }

  /** The reads made for the first `i` branches land inside the slices. */
  predicate ReadsInRange(tl: Timeline, i: nat)
    requires i <= |tl.branches|
  {
    forall j | 0 <= j < i && tl.branches[j].prevBranch != ZeroId ::
      && IndexOf(tl.dictionary, tl.branches[j].prevBranch) < |tl.branches|
      && IndexOf(tl.dictionary, tl.branches[j].branchId) < |tl.branches|
  }

  /** After the first `i` branches, every counter holds the number of
      sub-branches of its branch seen so far. */
  predicate CountsUpTo(bs: seq<Branch>, counts: seq<nat>, i: nat)
    requires i <= |bs|
  {
    |counts| == |bs| && forall p | 0 <= p < |bs| :: counts[p] == Children(bs[..i], bs[p].branchId)
  }

  /** After the first `i` branches, those that are not roots carry their
      sibling number and all others 0. */
  predicate NumbersUpTo(bs: seq<Branch>, numbers: seq<nat>, i: nat)
    requires i <= |bs|
  {
    |numbers| == |bs|
    && forall j | 0 <= j < |bs| ::
         numbers[j] == if j < i && bs[j].prevBranch != ZeroId then SiblingIndex(bs, j) else 0
  }

  /** The numbering of every branch: 0 for roots, the sibling number otherwise. */
  predicate NumbersMatch(tl: Timeline, numbers: seq<nat>) {
    NumbersUpTo(tl.branches, numbers, |tl.branches|)
  }

  /** One iteration of the first pass of Draw, for branch `i`: a root is
      skipped; otherwise the dictionary is read for the parent and the
      branch (0 when absent), the branch gets its parent's counter and the
      counter goes up. A read past the end of the slices fails. */
  function PassStep(tl: Timeline, counts: seq<nat>, numbers: seq<nat>, i: nat)
    : (r: Result<(seq<nat>, seq<nat>)>)
    requires i < |tl.branches| && |counts| == |tl.branches| && |numbers| == |tl.branches|
    ensures r.Err? <==>
      && tl.branches[i].prevBranch != ZeroId
      && (IndexOf(tl.dictionary, tl.branches[i].prevBranch) >= |tl.branches|
          || IndexOf(tl.dictionary, tl.branches[i].branchId) >= |tl.branches|)
    ensures r.Ok? ==> |r.value.0| == |tl.branches| && |r.value.1| == |tl.branches|
  {
    var b := tl.branches[i];
    if b.prevBranch == ZeroId then Ok((counts, numbers))
    else
      var prevIndex := IndexOf(tl.dictionary, b.prevBranch);
      var branchIndex := IndexOf(tl.dictionary, b.branchId);
      if prevIndex >= |tl.branches| || branchIndex >= |tl.branches| then Err(SlotOutOfRange)
      else Ok((counts[prevIndex := counts[prevIndex] + 1], numbers[branchIndex := counts[prevIndex]]))
  }

  /** The counters and numbers after the first `i` iterations. */
  function NumberingPass(tl: Timeline, i: nat): (r: Result<(seq<nat>, seq<nat>)>)
    requires i <= |tl.branches|
    ensures r.Ok? ==> |r.value.0| == |tl.branches| && |r.value.1| == |tl.branches|
    decreases i
  {
    if i == 0 then Ok((seq(|tl.branches|, _ => 0), seq(|tl.branches|, _ => 0)))
    else
      var prev :- NumberingPass(tl, i - 1);
      PassStep(tl, prev.0, prev.1, i - 1)
  }

  /** The pass gets through the first `i` branches exactly when their reads
      stay in range. */
  lemma {:induction false} NumberingPassOk(tl: Timeline, i: nat)
    requires i <= |tl.branches|
    ensures NumberingPass(tl, i).Ok? <==> ReadsInRange(tl, i)
    decreases i
  {
    if i > 0 {
      NumberingPassOk(tl, i - 1);
    }
  }

  /** On a well-formed branch list, after `i` iterations every counter and
      number is what its definition says. */
  lemma {:induction false} NumberingPassCounts(tl: Timeline, i: nat)
    requires WellFormed(tl) && i <= |tl.branches|
    ensures NumberingPass(tl, i).Ok?
    ensures CountsUpTo(tl.branches, NumberingPass(tl, i).value.0, i)
    ensures NumbersUpTo(tl.branches, NumberingPass(tl, i).value.1, i)
    decreases i
  {
    if i == 0 {
      assert tl.branches[..0] == [];
    } else {
      NumberingPassCounts(tl, i - 1);
      var prev := NumberingPass(tl, i - 1).value;
      PassStepCounts(tl, prev.0, prev.1, i - 1);
    }
  }

  /** One iteration keeps the counters and numbers right. */
  lemma PassStepCounts(tl: Timeline, counts: seq<nat>, numbers: seq<nat>, i: nat)
    requires WellFormed(tl) && i < |tl.branches|
    requires CountsUpTo(tl.branches, counts, i) && NumbersUpTo(tl.branches, numbers, i)
    ensures PassStep(tl, counts, numbers, i).Ok?
    ensures CountsUpTo(tl.branches, PassStep(tl, counts, numbers, i).value.0, i + 1)
    ensures NumbersUpTo(tl.branches, PassStep(tl, counts, numbers, i).value.1, i + 1)
  {
    var bs := tl.branches;
    if bs[i].prevBranch == ZeroId {
      RootStep(bs, counts, numbers, i);
    } else {
      CountStep(tl, counts, i);
      var q := IndexOf(tl.dictionary, bs[i].prevBranch);
      NumberStep(bs, numbers, i, counts[q]);
    }
  }

  /** The first pass of Draw, as a loop over the branch list. */
  method SubBranchNumbers(tl: Timeline) returns (r: Result<seq<nat>>)
    ensures r.Ok? <==> NumberingInRange(tl)
    ensures r.Ok? ==> NumberingPass(tl, |tl.branches|).Ok? && r.value == NumberingPass(tl, |tl.branches|).value.1
  {
    var n := |tl.branches|;
    var counts: seq<nat> := seq(n, _ => 0);
    var numbers: seq<nat> := seq(n, _ => 0);
    var i := 0;
    while i < n
      invariant 0 <= i <= n
      invariant NumberingPass(tl, i) == Ok((counts, numbers))
    {
      var step := PassStep(tl, counts, numbers, i);
      if step.Err? {
        NumberingPassOk(tl, i + 1);
        NumberingPassOk(tl, n);
        return Err(step.error);
      }
      counts, numbers := step.value.0, step.value.1;
      i := i + 1;
    }
    NumberingPassOk(tl, n);
    return Ok(numbers);
  }

  /** Counting a non-root branch `i` advances its parent's counter only. */
  lemma CountStep(tl: Timeline, counts: seq<nat>, i: nat)
    requires WellFormed(tl) && i < |tl.branches| && tl.branches[i].prevBranch != ZeroId
    requires CountsUpTo(tl.branches, counts, i)
    ensures IndexOf(tl.dictionary, tl.branches[i].branchId) == i
    ensures var q := IndexOf(tl.dictionary, tl.branches[i].prevBranch);
      && q < i
      && counts[q] == SiblingIndex(tl.branches, i)
      && CountsUpTo(tl.branches, counts[q := counts[q] + 1], i + 1)
  {
    var bs := tl.branches;
    var q := tl.dictionary[bs[i].prevBranch];
    assert bs[..i + 1][..i] == bs[..i];
    assert bs[q].branchId == bs[i].prevBranch;
    var counts' := counts[q := counts[q] + 1];
    forall p | 0 <= p < |bs|
      ensures counts'[p] == Children(bs[..i + 1], bs[p].branchId)
    {
      if p != q {
        assert tl.dictionary[bs[p].branchId] == p;
      }
    }
  }

  /** Numbering a non-root branch `i` with its sibling number. */
  lemma NumberStep(bs: seq<Branch>, numbers: seq<nat>, i: nat, c: nat)
    requires i < |bs| && bs[i].prevBranch != ZeroId && c == SiblingIndex(bs, i)
    requires NumbersUpTo(bs, numbers, i)
    ensures NumbersUpTo(bs, numbers[i := c], i + 1)
  {
  }

  /** A root branch leaves every counter and number as it was. */
  lemma RootStep(bs: seq<Branch>, counts: seq<nat>, numbers: seq<nat>, i: nat)
    requires i < |bs| && bs[i].prevBranch == ZeroId
    requires CountsUpTo(bs, counts, i) && NumbersUpTo(bs, numbers, i)
    ensures CountsUpTo(bs, counts, i + 1) && NumbersUpTo(bs, numbers, i + 1)
  {
    assert bs[..i + 1][..i] == bs[..i];
  }

  /** The number a string of decimal digits spells, most significant first. */
  function DigitsValue(s: string): int
    decreases |s|
  {
    if |s| == 0 then 0
    else DigitsValue(s[..|s| - 1]) * 10 + (s[|s| - 1] as int - '0' as int)
  }

  /** The decimal digits of `n`, as `%d` prints them: digits only, spelling
      `n`, with no leading zero. */
  function Decimal(n: nat): (s: string)
    ensures |s| > 0
    ensures forall c | c in s :: '0' <= c <= '9'
    ensures DigitsValue(s) == n
    ensures s[0] == '0' <==> n == 0
    ensures n < 10 <==> |s| == 1
    decreases n
  {
    if n < 10 then [Digit(n)]
    else
      var s := Decimal(n / 10) + [Digit(n % 10)];
      assert s[..|s| - 1] == Decimal(n / 10);
      s
  }

  function Digit(d: nat): (c: char)
    requires d < 10
    ensures '0' <= c <= '9' && c as int - '0' as int == d
  {
    (48 + d) as char
  }

  /** The label of branch `i`: "R" for a root, otherwise its parent's label,
      a dot and its number among its siblings. */
  function Label(tl: Timeline, i: nat): (s: string)
    requires WellFormed(tl) && i < |tl.branches|
    ensures |s| > 0 && s[0] == 'R'
    ensures s == "R" <==> tl.branches[i].prevBranch == ZeroId
    decreases i
  {
    var b := tl.branches[i];
    if b.prevBranch == ZeroId then "R"
    else Label(tl, tl.dictionary[b.prevBranch]) + "." + Decimal(SiblingIndex(tl.branches, i))
  }

  /** The id recFunc looks up after `k` nested calls starting from `id`, or
      None once a lookup has failed or found a root on the way. Go's recursion
      from `id` never ends iff this is Some for every `k`. */
  function Ancestor(tl: Timeline, id: EventId, k: nat): Option<EventId>
    decreases k
  {
    if k == 0 then Some(id)
    else
      var b := GetBranch(tl, id);
      if b.Ok? && b.value.prevBranch != ZeroId then Ancestor(tl, b.value.prevBranch, k - 1) else None
  }

  /** recFunc of Draw: look the branch up, stop at a root, otherwise read this
      branch's number and append it to the parent's label. Go recurses without
      bound; `fuel` bounds the nesting, and BranchLabels passes one more than
      the branch count, which RecLabelFuelSuffices shows is only exhausted
      where Go recurses forever. */
  function RecLabel(tl: Timeline, numbers: seq<nat>, id: EventId, fuel: nat): (r: Result<string>)
    ensures r.Ok? ==> |r.value| > 0 && r.value[0] == 'R' && Ancestor(tl, id, fuel).None?
    ensures r == Err(BranchCycle) ==> Ancestor(tl, id, fuel).Some?
    decreases fuel
  {
    if fuel == 0 then Err(BranchCycle)
    else
      var b :- GetBranch(tl, id);
      if b.prevBranch == ZeroId then Ok("R")
      else
        var idx := IndexOf(tl.dictionary, b.branchId);
        if idx >= |numbers| then Err(SlotOutOfRange)
        else
          var parent :- RecLabel(tl, numbers, b.prevBranch, fuel - 1);
          Ok(parent + "." + Decimal(numbers[idx]))
  }

  /** On a well-formed branch list, recFunc computes the label of the branch. */
  lemma {:induction false} RecLabelIsLabel(tl: Timeline, numbers: seq<nat>, i: nat, fuel: nat)
    requires WellFormed(tl) && i < |tl.branches| && i < fuel && NumbersMatch(tl, numbers)
    ensures RecLabel(tl, numbers, tl.branches[i].branchId, fuel) == Ok(Label(tl, i))
    decreases i
  {
    var b := tl.branches[i];
    assert GetBranch(tl, b.branchId) == Ok(b);
    if b.prevBranch != ZeroId {
      var q := tl.dictionary[b.prevBranch];
      assert tl.branches[q].branchId == b.prevBranch;
      RecLabelIsLabel(tl, numbers, q, fuel - 1);
    }
  }

  /** On a well-formed branch list the numbering pass never reads out of range. */
  lemma WellFormedReadsInRange(tl: Timeline)
    requires WellFormed(tl)
    ensures NumberingInRange(tl)
  {
    forall j | 0 <= j < |tl.branches| && tl.branches[j].prevBranch != ZeroId
      ensures IndexOf(tl.dictionary, tl.branches[j].prevBranch) < |tl.branches|
      ensures IndexOf(tl.dictionary, tl.branches[j].branchId) < |tl.branches|
    {
    }
  }

  /** The first `i` labels are those of the first `i` branches. */
  predicate LabelsUpTo(tl: Timeline, labels: seq<string>, i: nat) {
    && WellFormed(tl) && i <= |tl.branches| && |labels| == i
    && forall j | 0 <= j < i :: labels[j] == Label(tl, j)
  }

  lemma LabelsStep(tl: Timeline, labels: seq<string>, i: nat, text: string)
    requires LabelsUpTo(tl, labels, i) && i < |tl.branches| && text == Label(tl, i)
    ensures LabelsUpTo(tl, labels + [text], i + 1)
  {
  }

  /** The side labels of Draw, one per branch in list order. */
  method BranchLabels(tl: Timeline) returns (r: Result<seq<string>>)
    ensures WellFormed(tl) ==> r.Ok?
    ensures r.Ok? ==> |r.value| == |tl.branches|
    ensures r.Ok? && WellFormed(tl) ==> forall i | 0 <= i < |tl.branches| :: r.value[i] == Label(tl, i)
  {
    ghost var wf := WellFormed(tl);
    if wf {
      WellFormedReadsInRange(tl);
    }
    var numbers :- SubBranchNumbers(tl);
    if wf {
      NumberingPassCounts(tl, |tl.branches|);
    }
    var labels: seq<string> := [];
    var i := 0;
    while i < |tl.branches|
      invariant 0 <= i <= |tl.branches| && |labels| == i
      invariant wf ==> LabelsUpTo(tl, labels, i)
    {
      var text := RecLabel(tl, numbers, tl.branches[i].branchId, |tl.branches| + 1);
      if wf {
        RecLabelIsLabel(tl, numbers, i, |tl.branches| + 1);
      }
      if text.Err? {
        return Err(text.error);
      }
      if wf {
        LabelsStep(tl, labels, i, text.value);
      }
      labels := labels + [text.value];
      i := i + 1;
    }
    return Ok(labels);
  }

  // ---------------------------------------------------------------------
  // Rows and the highlighted cell (game/gui.go:396-415)

  /** The first turn drawn in a branch's row: its creation time when it was
      split off another branch, 0 otherwise. */
  function RowStart(b: Branch): nat {
    if b.prevBranchLastEvent != ZeroId then b.creationTime else 0
  }

  datatype Cell = Cell(time: nat, highlighted: bool)

  /** The live turn of row `k`, when its slot holds a branch store. */
  predicate HasLiveStore(tl: Timeline, k: nat) {
    && k < |tl.branches|
    && tl.branches[k].storeId < |tl.stores|
    && tl.stores[tl.branches[k].storeId].BranchAttributes?
  }

  function LiveTurn(tl: Timeline, k: nat): nat
    requires HasLiveStore(tl, k)
  {
    tl.stores[tl.branches[k].storeId].branch.turn
  }

  /** The cell of the current branch at the turn the screens show. */
  predicate IsHighlighted(root: Attributes, b: Branch, t: nat) {
    && GetGameStore(root).Ok?
    && b.branchId == GetGameStore(root).value.currentBranch
    && RewoundBranchStore(root).Ok?
    && RewoundBranchStore(root).value.turn == t
  }

  /** The cells Draw puts in row `k`: one per turn from the row's start to
      the branch's live turn, both included. */
  function RowCells(root: Attributes, k: nat): (r: Result<seq<Cell>>)
    requires root.TimelineAttributes? ==> k < |root.timeline.branches|
    ensures r.Ok? <==>
      && root.TimelineAttributes?
      && HasLiveStore(root.timeline, k)
      && (RowStart(root.timeline.branches[k]) <= LiveTurn(root.timeline, k) ==>
            && GetGameStore(root).Ok?
            && (root.timeline.branches[k].branchId == GetGameStore(root).value.currentBranch ==>
                  RewoundBranchStore(root).Ok?))
    ensures r.Ok? ==>
      var start := RowStart(root.timeline.branches[k]);
      var turn := LiveTurn(root.timeline, k);
      && |r.value| == (if turn < start then 0 else turn + 1 - start)
      && (forall j | 0 <= j < |r.value| :: r.value[j].time == start + j)
    ensures r.Ok? ==> forall j | 0 <= j < |r.value| ::
      r.value[j].highlighted <==> IsHighlighted(root, root.timeline.branches[k], r.value[j].time)
  {
    var tl :- GetTimelineStore(root);
    var b := tl.branches[k];
    var slot :- SlotAt(tl.stores, b.storeId);
    var store :- GetBranchStore(slot);
    var start := RowStart(b);
    if store.turn < start then Ok([])
    else
      var game :- GetGameStore(root);
      if b.branchId != game.currentBranch then
        Ok(seq(store.turn + 1 - start, (j: int) requires 0 <= j => Cell(start + j, false)))
      else
        var shown :- RewoundBranchStore(root);
        Ok(seq(store.turn + 1 - start, (j: int) requires 0 <= j => Cell(start + j, shown.turn == start + j)))
  }

  // ---------------------------------------------------------------------
  // Hit testing (game/gui.go:424-463)

  datatype Vec = Vec(x: real, y: real)

  function Sub(a: Vec, b: Vec): Vec {
    Vec(a.x - b.x, a.y - b.y)
  }

  /** insideRect: all four edges belong to the rectangle. */
  predicate InsideRect(p: Vec, d: Vec) {
    p.x >= 0.0 && p.x <= d.x && p.y >= 0.0 && p.y <= d.y
  }

  /** Width and height of a cell. */
  const CellSize := Vec(30.0, 15.0)

  /** Horizontal distance between cells when hit testing (game/gui.go:437)
      and when drawing (game/gui.go:409). */
  const ClickSpacing := 38.5
  const DrawSpacing := 38.45

  /** The lower left corner of cell (row `k`, turn `i`) for the panel at `pos`. */
  function CellOrigin(pos: Vec, spacing: real, k: nat, i: nat): Vec {
    Vec(spacing * (i as real) + 18.0 + pos.x, -20.0 * (k as real) - 20.0 + pos.y)
  }

  /** The latest last-event time over all branches (0 for none). */
  function MaxLastEventTime(bs: seq<Branch>): (m: nat)
    ensures forall i | 0 <= i < |bs| :: bs[i].lastEventTime <= m
    ensures |bs| == 0 ==> m == 0
    ensures |bs| > 0 ==> exists i | 0 <= i < |bs| :: bs[i].lastEventTime == m
    decreases |bs|
  {
    if |bs| == 0 then 0
    else
      var m := MaxLastEventTime(bs[..|bs| - 1]);
      var last := bs[|bs| - 1].lastEventTime;
      assert forall i | 0 <= i < |bs| - 1 :: bs[..|bs| - 1][i] == bs[i];
      if last > m then last else m
  }

  /** Cell (k, i) is scanned and the mouse lies inside it. Every row is
      scanned from its start up to the latest turn of any branch. */
  predicate HitAt(tl: Timeline, pos: Vec, mouse: Vec, spacing: real, k: nat, i: nat) {
    && k < |tl.branches|
    && RowStart(tl.branches[k]) <= i <= MaxLastEventTime(tl.branches)
    && InsideRect(Sub(mouse, CellOrigin(pos, spacing, k, i)), CellSize)
  }

  /** Cell (k', i') comes before cell (k, i) in scan order. */
  predicate ScannedBefore(k': nat, i': nat, k: nat, i: nat) {
    k' < k || (k' == k && i' < i)
  }

  datatype Clicked = Clicked(branch: EventId, time: nat)

  /** The scan of CheckMouse: rows in list order, turns in increasing order;
      the first cell containing the mouse is reported. */
  method ScanCells(tl: Timeline, pos: Vec, mouse: Vec, spacing: real)
    returns (hit: Option<Clicked>, ghost k: nat, ghost i: nat)
    ensures hit.Some? ==> HitAt(tl, pos, mouse, spacing, k, i)
    ensures hit.Some? ==> hit.value == Clicked(tl.branches[k].branchId, i)
    ensures hit.Some? ==>
      forall k': nat, i': nat | ScannedBefore(k', i', k, i) :: !HitAt(tl, pos, mouse, spacing, k', i')
    ensures hit.None? <==> forall k': nat, i': nat :: !HitAt(tl, pos, mouse, spacing, k', i')
  {
    var maxTime := MaxLastEventTime(tl.branches);
    k, i := 0, 0;
    var row := 0;
    while row < |tl.branches|
      invariant 0 <= row <= |tl.branches|
      invariant forall k': nat, i': nat | k' < row :: !HitAt(tl, pos, mouse, spacing, k', i')
    {
      var t := RowStart(tl.branches[row]);
      while t <= maxTime
        invariant RowStart(tl.branches[row]) <= t
        invariant forall i': nat | i' < t :: !HitAt(tl, pos, mouse, spacing, row, i')
        decreases maxTime as int - t
      {
        if InsideRect(Sub(mouse, CellOrigin(pos, spacing, row, t)), CellSize) {
          assert HitAt(tl, pos, mouse, spacing, row, t);
          return Some(Clicked(tl.branches[row].branchId, t)), row, t;
        }
        t := t + 1;
      }
      row := row + 1;
    }
    return None, 0, 0;
  }

  /** CheckMouse as written: hit testing with the 38.5 spacing. */
  method CheckMouse(tl: Timeline, pos: Vec, mouse: Vec) returns (hit: Option<Clicked>, ghost k: nat, ghost i: nat)
    ensures hit.Some? ==> HitAt(tl, pos, mouse, ClickSpacing, k, i)
    ensures hit.Some? ==> hit.value == Clicked(tl.branches[k].branchId, i)
    ensures hit.None? <==> forall k': nat, i': nat :: !HitAt(tl, pos, mouse, ClickSpacing, k', i')
  {
    hit, k, i := ScanCells(tl, pos, mouse, ClickSpacing);
  }

  /** CheckMouse with the spacing the cells are drawn with. */
  method CheckMouseAligned(tl: Timeline, pos: Vec, mouse: Vec)
    returns (hit: Option<Clicked>, ghost k: nat, ghost i: nat)
    ensures hit.Some? ==> HitAt(tl, pos, mouse, DrawSpacing, k, i)
    ensures hit.Some? ==> hit.value == Clicked(tl.branches[k].branchId, i)
    ensures hit.None? <==> forall k': nat, i': nat :: !HitAt(tl, pos, mouse, DrawSpacing, k', i')
    ensures forall k': nat, i': nat | HitAt(tl, pos, mouse, DrawSpacing, k', i') ::
      hit == Some(Clicked(tl.branches[k'].branchId, i'))
  {
    hit, k, i := ScanCells(tl, pos, mouse, DrawSpacing);
  }
}

module TimelineViewLemmas {
  import opened Failures
  import opened Store
  import opened TimelineView

  /** Different numbers print differently: each printed number reads back
      as itself. */
  lemma DecimalInjective(a: nat, b: nat)
    requires Decimal(a) == Decimal(b)
    ensures a == b
  {
  }

  /** In `p + "." + d` with a dot-free `d`, the dot after `p` is the last one. */
  lemma LastDot(p: string, d: string)
    requires '.' !in d
    ensures (p + "." + d)[|p|] == '.'
    ensures forall k | |p| < k < |p + "." + d| :: (p + "." + d)[k] != '.'
  {
    forall k | |p| < k < |p + "." + d|
      ensures (p + "." + d)[k] != '.'
    {
      assert (p + "." + d)[k] == d[k - |p| - 1];
    }
  }

  /** A label ends in a dot followed by a dot-free number, so the last dot
      splits it back into the parent's label and the number. */
  lemma SplitAtLastDot(p1: string, d1: string, p2: string, d2: string)
    requires '.' !in d1 && '.' !in d2
    requires p1 + "." + d1 == p2 + "." + d2
    ensures p1 == p2 && d1 == d2
  {
    var s := p1 + "." + d1;
    LastDot(p1, d1);
    LastDot(p2, d2);
    assert |p1| == |p2|;
    assert p1 == s[..|p1|] == p2;
    assert d1 == s[|p1| + 1..] == d2;
  }

  lemma DecimalHasNoDot(n: nat)
    ensures '.' !in Decimal(n)
  {
  }

  /** Counting over a longer prefix never counts fewer children. */
  lemma {:induction false} ChildrenMonotone(bs: seq<Branch>, a: nat, b: nat, parent: EventId)
    requires a <= b <= |bs|
    ensures Children(bs[..a], parent) <= Children(bs[..b], parent)
    decreases b
  {
    if a < b {
      assert bs[..b][..b - 1] == bs[..b - 1];
      ChildrenMonotone(bs, a, b - 1, parent);
    }
  }

  /** Of two sub-branches of one parent, the later one has the larger number. */
  lemma SiblingsNumberedApart(bs: seq<Branch>, i: nat, j: nat)
    requires i < j < |bs| && bs[i].prevBranch == bs[j].prevBranch && bs[i].prevBranch != ZeroId
    ensures SiblingIndex(bs, i) < SiblingIndex(bs, j)
  {
    assert bs[..i + 1][..i] == bs[..i];
    ChildrenMonotone(bs, i + 1, j, bs[i].prevBranch);
  }

  /** With a single root, no two branches share a side label. */
  lemma {:induction false} LabelsDistinct(tl: Timeline, i: nat, j: nat)
    requires WellFormed(tl) && SingleRoot(tl)
    requires i < |tl.branches| && j < |tl.branches| && i != j
    ensures Label(tl, i) != Label(tl, j)
    decreases i + j
  {
    var bs := tl.branches;
    if bs[i].prevBranch != ZeroId && bs[j].prevBranch != ZeroId && Label(tl, i) == Label(tl, j) {
      var qi, qj := tl.dictionary[bs[i].prevBranch], tl.dictionary[bs[j].prevBranch];
      var si, sj := SiblingIndex(bs, i), SiblingIndex(bs, j);
      DecimalHasNoDot(si);
      DecimalHasNoDot(sj);
      SplitAtLastDot(Label(tl, qi), Decimal(si), Label(tl, qj), Decimal(sj));
      DecimalInjective(si, sj);
      if qi != qj {
        LabelsDistinct(tl, qi, qj);
      }
      assert bs[i].prevBranch == bs[qi].branchId == bs[j].prevBranch;
      if i < j {
        SiblingsNumberedApart(bs, i, j);
      } else {
        SiblingsNumberedApart(bs, j, i);
      }
    }
  }

  /** Two roots both read "R": without a single root, labels can clash. */
  lemma TwoRootsClash(tl: Timeline)
    requires WellFormed(tl) && |tl.branches| >= 2
    requires tl.branches[0].prevBranch == ZeroId && tl.branches[1].prevBranch == ZeroId
    ensures Label(tl, 0) == Label(tl, 1) == "R"
  {
  }

  /** A row shows the highlight at most once, only in the current branch's
      row, and it shows it whenever the turn on screen lies inside the row. */
  lemma HighlightOnce(root: Attributes, k: nat)
    requires root.TimelineAttributes? && k < |root.timeline.branches|
    requires RowCells(root, k).Ok?
    ensures forall j1, j2 | 0 <= j1 < j2 < |RowCells(root, k).value| ::
      !(RowCells(root, k).value[j1].highlighted && RowCells(root, k).value[j2].highlighted)
    ensures (exists j | 0 <= j < |RowCells(root, k).value| :: RowCells(root, k).value[j].highlighted)
      ==> root.timeline.branches[k].branchId == GetGameStore(root).value.currentBranch
  {
  }

  lemma HighlightShown(root: Attributes, k: nat)
    requires root.TimelineAttributes? && k < |root.timeline.branches|
    requires RowCells(root, k).Ok?
    requires RewoundBranchStore(root).Ok?
    requires IsHighlighted(root, root.timeline.branches[k], RewoundBranchStore(root).value.turn)
    requires RowStart(root.timeline.branches[k]) <= RewoundBranchStore(root).value.turn
                                                 <= LiveTurn(root.timeline, k)
    ensures exists j | 0 <= j < |RowCells(root, k).value| :: RowCells(root, k).value[j].highlighted
  {
    var j := RewoundBranchStore(root).value.turn - RowStart(root.timeline.branches[k]);
    assert RowCells(root, k).value[j].highlighted;
  }

  /** The hit box includes every point of its four edges, and no point left
      of, right of, below or above it. */
  lemma InsideRectInclusive(d: Vec, t: real)
    requires d.x >= 0.0 && d.y >= 0.0
    ensures 0.0 <= t <= d.x ==> InsideRect(Vec(t, 0.0), d) && InsideRect(Vec(t, d.y), d)
    ensures 0.0 <= t <= d.y ==> InsideRect(Vec(0.0, t), d) && InsideRect(Vec(d.x, t), d)
    ensures forall p: Vec | p.x < 0.0 || p.y < 0.0 || p.x > d.x || p.y > d.y :: !InsideRect(p, d)
  {
  }

  /** As written, hit testing spaces cells 38.5 apart while drawing spaces
      them 38.45 apart. A panel at the origin with one branch whose last event
      is at turn 20 draws the cell of turn 20 with its left edge at x = 787;
      a click there lies inside that drawn cell but inside no hit box. */
  lemma ClickMissesDrawnCell()
    ensures var b := Branch(EventId(1, 1), ZeroId, ZeroId, 0, 0, 20);
            var tl := Timeline([b], map[EventId(1, 1) := 0],
                               [BranchAttributes(BranchStore(EventId(1, 1), map[], map[], 0, {}, 20))],
                               [], GameAttributes(GameStore(EventId(1, 1), 0, "", "", false)));
            var pos := Vec(0.0, 0.0);
            var mouse := Vec(787.0, -15.0);
      && RowCells(TimelineAttributes(tl), 0).Ok?
      && |RowCells(TimelineAttributes(tl), 0).value| == 21
      && RowCells(TimelineAttributes(tl), 0).value[20].time == 20
      && InsideRect(Sub(mouse, CellOrigin(pos, DrawSpacing, 0, 20)), CellSize)
      && forall k: nat, i: nat :: !HitAt(tl, pos, mouse, ClickSpacing, k, i)
  {
    var b := Branch(EventId(1, 1), ZeroId, ZeroId, 0, 0, 20);
    var tl := Timeline([b], map[EventId(1, 1) := 0],
                       [BranchAttributes(BranchStore(EventId(1, 1), map[], map[], 0, {}, 20))],
                       [], GameAttributes(GameStore(EventId(1, 1), 0, "", "", false)));
    var mouse := Vec(787.0, -15.0);
    forall k: nat, i: nat ensures !HitAt(tl, Vec(0.0, 0.0), mouse, ClickSpacing, k, i) {
      if i <= 19 {
        assert 38.5 * (i as real) <= 731.5;
      } else {
        assert 38.5 * (i as real) >= 770.0;
      }
    }
  }

  /** With the drawing spacing, a click anywhere inside a scanned cell hits
      that cell and no other, so CheckMouseAligned reports exactly it. */
  lemma DrawnCellSelected(tl: Timeline, pos: Vec, mouse: Vec, k: nat, i: nat)
    requires k < |tl.branches| && RowStart(tl.branches[k]) <= i <= MaxLastEventTime(tl.branches)
    requires InsideRect(Sub(mouse, CellOrigin(pos, DrawSpacing, k, i)), CellSize)
    ensures HitAt(tl, pos, mouse, DrawSpacing, k, i)
    ensures forall k': nat, i': nat | HitAt(tl, pos, mouse, DrawSpacing, k', i') :: k' == k && i' == i
  {
  }

  /** Going `a` calls deep and then `b` more is going `a + b` calls deep. */
  lemma {:induction false} AncestorAdd(tl: Timeline, id: EventId, a: nat, b: nat)
    requires Ancestor(tl, id, a).Some?
    ensures Ancestor(tl, id, a + b) == Ancestor(tl, Ancestor(tl, id, a).value, b)
    decreases a
  {
    if a > 0 {
      AncestorAdd(tl, GetBranch(tl, id).value.prevBranch, a - 1, b);
    }
  }

  /** A recursion that gets `k` calls deep got through every shallower depth. */
  lemma {:induction false} AncestorPrefix(tl: Timeline, id: EventId, k: nat, m: nat)
    requires m <= k && Ancestor(tl, id, k).Some?
    ensures Ancestor(tl, id, m).Some?
    decreases m
  {
    if m > 0 {
      AncestorPrefix(tl, GetBranch(tl, id).value.prevBranch, k - 1, m - 1);
    }
  }

  /** Of more than `n` numbers below `n`, two are equal. */
  lemma {:induction false} Pigeonhole(s: seq<nat>, n: nat)
    requires |s| > n && forall k | 0 <= k < |s| :: s[k] < n
    ensures exists i, j | 0 <= i < j < |s| :: s[i] == s[j]
    decreases n
  {
    var v := s[|s| - 1];
    if exists i | 0 <= i < |s| - 1 :: s[i] == v {
      var i :| 0 <= i < |s| - 1 && s[i] == v;
      assert s[i] == s[|s| - 1];
    } else {
      // Drop the last number and close the gap it leaves below n.
      var t: seq<nat> := seq(|s| - 1, k requires 0 <= k < |s| - 1 => if s[k] > v then s[k] - 1 else s[k]);
      Pigeonhole(t, n - 1);
      var i, j :| 0 <= i < j < |t| && t[i] == t[j];
      assert s[i] == s[j];
    }
  }

  /** A lookup chain that comes back to `p` after `d` steps goes on forever. */
  lemma {:induction false} CycleForever(tl: Timeline, p: EventId, d: nat, k: nat)
    requires d > 0 && Ancestor(tl, p, d) == Some(p)
    ensures Ancestor(tl, p, k).Some?
    decreases k
  {
    if k <= d {
      AncestorPrefix(tl, p, d, k);
    } else {
      AncestorAdd(tl, p, d, k - d);
      CycleForever(tl, p, d, k - d);
    }
  }

  /** The list entry the `k`-th lookup from `id` finds (0 when it finds none). */
  function LookupIndex(tl: Timeline, id: EventId, k: nat): nat {
    var a := Ancestor(tl, id, k);
    if a.Some? && a.value in tl.dictionary then tl.dictionary[a.value] else 0
  }

  /** The `k`-th lookup succeeds and recurses when the chain gets one call deeper. */
  lemma LookupRecurses(tl: Timeline, id: EventId, k: nat)
    requires Ancestor(tl, id, k + 1).Some?
    ensures Ancestor(tl, id, k).Some?
    ensures GetBranch(tl, Ancestor(tl, id, k).value).Ok?
    ensures LookupIndex(tl, id, k) < |tl.branches|
    ensures Ancestor(tl, id, k + 1) == Some(GetBranch(tl, Ancestor(tl, id, k).value).value.prevBranch)
  {
    AncestorPrefix(tl, id, k + 1, k);
    AncestorAdd(tl, id, k, 1);
  }

  /** One more than the branch count is enough fuel: recFunc's lookups find
      list entries, so n + 1 lookups that all recurse find some entry twice,
      and from there Go's recursion comes back round forever. A `BranchCycle`
      from BranchLabels therefore marks a real infinite recursion. */
  lemma RecLabelFuelSuffices(tl: Timeline, numbers: seq<nat>, id: EventId, m: nat)
    requires RecLabel(tl, numbers, id, |tl.branches| + 1) == Err(BranchCycle)
    ensures Ancestor(tl, id, m).Some?
  {
    var n := |tl.branches|;
    var s: seq<nat> := seq(n + 1, k requires 0 <= k <= n => LookupIndex(tl, id, k));
    forall k | 0 <= k < |s|
      ensures s[k] < n
    {
      AncestorPrefix(tl, id, n + 1, k + 1);
      LookupRecurses(tl, id, k);
    }
    Pigeonhole(s, n);
    var i, j :| 0 <= i < j < |s| && s[i] == s[j];
    AncestorPrefix(tl, id, n + 1, i + 1);
    AncestorPrefix(tl, id, n + 1, j + 1);
    LookupRecurses(tl, id, i);
    LookupRecurses(tl, id, j);
    var p := Ancestor(tl, id, i + 1).value;
    assert Ancestor(tl, id, j + 1) == Some(p);
    AncestorAdd(tl, id, i + 1, j - i);
    if m <= i + 1 {
      AncestorPrefix(tl, id, n + 1, m);
    } else {
      AncestorAdd(tl, id, i + 1, m - (i + 1));
      CycleForever(tl, p, j - i, m - (i + 1));
    }
  }
}
