/** The parts of a layout: the orchestration group on top, and below it one band for each depth. */
module TraceGroups {
  import opened Domain
  import opened ContextDepth
  import opened TraceLayout

  // ---- Depths --------------------------------------------------------------------------

  function Contexts(blocks: seq<Block>): set<Id> {
    set i | 0 <= i < |blocks| && blocks[i].contextPackId.Some? :: blocks[i].contextPackId.value
  }

  /** The step with an identifier; the last one, should there be several. */
  function StepById(steps: seq<Step>, id: Id): Option<Step> {
    if steps == [] then None
    else if steps[|steps| - 1].id == id then Some(steps[|steps| - 1])
    else StepById(steps[..|steps| - 1], id)
  }

  /** The context pack of a step's parent, if it is another one with a block. */
  function ParentContext(all: seq<Step>, step: Step, contexts: set<Id>): Option<Id> {
    if step.contextPackId.None? || step.parentStepId.None? then None
    else
      var parent := StepById(all, step.parentStepId.value);
      if parent.Some? && parent.value.contextPackId.Some? && parent.value.contextPackId != step.contextPackId
         && parent.value.contextPackId.value in contexts
      then parent.value.contextPackId
      else None
  }

  function Predecessors(all: seq<Step>, steps: seq<Step>, contexts: set<Id>): (r: Relation)
    ensures Closed(r, contexts)
  {
    if steps == [] then map[]
    else
      var before, last := Predecessors(all, steps[..|steps| - 1], contexts), steps[|steps| - 1];
      var parent := ParentContext(all, last, contexts);
      if parent.None? then before
      else before[last.contextPackId.value := Before(before, last.contextPackId.value) + {parent.value}]
  }

  /** A pack precedes another exactly if a step of the other has a parent step in it. */
  lemma {:induction false} PredecessorsAreParents(all: seq<Step>, steps: seq<Step>, contexts: set<Id>, p: Id, c: Id)
    ensures p in Before(Predecessors(all, steps, contexts), c)
            <==> exists i :: 0 <= i < |steps| && steps[i].contextPackId == Some(c) && ParentContext(all, steps[i], contexts) == Some(p)
    decreases |steps|
  {
    if steps != [] {
      PredecessorsAreParents(all, steps[..|steps| - 1], contexts, p, c);
    }
  }

  /** The last step with the identifier. */
  ghost predicate IsStep(steps: seq<Step>, i: nat, id: Id) {
    i < |steps| && steps[i].id == id && forall j :: i < j < |steps| ==> steps[j].id != id
  }

  lemma {:induction false} StepByIdIsStep(steps: seq<Step>, id: Id)
    ensures StepById(steps, id).None? <==> forall i :: 0 <= i < |steps| ==> steps[i].id != id
    ensures StepById(steps, id).Some? ==> exists i: nat :: IsStep(steps, i, id) && steps[i] == StepById(steps, id).value
    decreases |steps|
  {
    if steps != [] {
      var n := |steps| - 1;
      StepByIdIsStep(steps[..n], id);
      if steps[n].id == id {
        assert IsStep(steps, n, id);
      } else if StepById(steps, id).Some? {
        var i: nat :| IsStep(steps[..n], i, id) && steps[..n][i] == StepById(steps, id).value;
        assert IsStep(steps, i, id);
      }
    }
  }

  /** A step follows another context pack if its parent step is in that pack, the pack has a block and the step is in a pack of its own. */
  lemma ParentContextIsOfParent(all: seq<Step>, step: Step, contexts: set<Id>, p: Id)
    ensures ParentContext(all, step, contexts) == Some(p) <==>
              && step.contextPackId.Some? && step.contextPackId.value != p && p in contexts && step.parentStepId.Some?
              && exists i: nat :: IsStep(all, i, step.parentStepId.value) && all[i].contextPackId == Some(p)
  {
    if step.parentStepId.Some? {
      StepByIdIsStep(all, step.parentStepId.value);
    }
  }

  // ---- Bands ---------------------------------------------------------------------------

  function Insert(blocks: seq<Block>, block: Block): (r: seq<Block>)
    ensures |r| == |blocks| + 1
  {
    if blocks != [] && block.firstSequence < blocks[|blocks| - 1].firstSequence
    then Insert(blocks[..|blocks| - 1], block) + [blocks[|blocks| - 1]]
    else blocks + [block]
  }

  /** By the first sequence number; equal ones keep their order. */
  function SortBlocks(blocks: seq<Block>): seq<Block> {
    if blocks == [] then [] else Insert(SortBlocks(blocks[..|blocks| - 1]), blocks[|blocks| - 1])
  }

  lemma {:induction false} InsertKeeps(blocks: seq<Block>, block: Block)
    ensures multiset(Insert(blocks, block)) == multiset(blocks) + multiset{block}
    decreases |blocks|
  {
    if blocks != [] {
      assert blocks == blocks[..|blocks| - 1] + [blocks[|blocks| - 1]];
      InsertKeeps(blocks[..|blocks| - 1], block);
    }
  }

  lemma {:induction false} SortKeeps(blocks: seq<Block>)
    ensures multiset(SortBlocks(blocks)) == multiset(blocks)
    decreases |blocks|
  {
    if blocks != [] {
      assert blocks == blocks[..|blocks| - 1] + [blocks[|blocks| - 1]];
      SortKeeps(blocks[..|blocks| - 1]);
      InsertKeeps(SortBlocks(blocks[..|blocks| - 1]), blocks[|blocks| - 1]);
    }
  }

  lemma {:induction false} InsertKeepsOrder(blocks: seq<Block>, block: Block)
    requires InOrder(blocks)
    ensures InOrder(Insert(blocks, block))
    ensures forall i :: 0 <= i <= |blocks| ==> NotAfter(Insert(blocks, block)[i], block) || Insert(blocks, block)[i] in blocks
    decreases |blocks|
  {
    if blocks != [] && block.firstSequence < blocks[|blocks| - 1].firstSequence {
      InsertKeepsOrder(blocks[..|blocks| - 1], block);
    }
  }

  /** The blocks of a band come in the order of their first sequence numbers. */
  lemma {:induction false} SortIsInOrder(blocks: seq<Block>)
    ensures InOrder(SortBlocks(blocks))
    decreases |blocks|
  {
    if blocks != [] {
      SortIsInOrder(blocks[..|blocks| - 1]);
      InsertKeepsOrder(SortBlocks(blocks[..|blocks| - 1]), blocks[|blocks| - 1]);
    }
  }

  predicate NotAfter(a: Block, b: Block) {
    a.firstSequence <= b.firstSequence
  }

  ghost predicate InOrder(blocks: seq<Block>) {
    forall i, j :: 0 <= i < j < |blocks| ==> NotAfter(blocks[i], blocks[j])
  }

  function AtDepth(blocks: seq<Block>, depths: seq<nat>, d: nat): seq<Block>
    requires |blocks| == |depths|
  {
    if blocks == [] then []
    else
      var n := |blocks| - 1;
      AtDepth(blocks[..n], depths[..n], d) + if depths[n] == d then [blocks[n]] else []
  }

  ghost predicate HasDepth(blocks: seq<Block>, depths: seq<nat>, d: nat, b: Block)
    requires |blocks| == |depths|
  {
    exists i :: 0 <= i < |blocks| && blocks[i] == b && depths[i] == d
  }

  lemma {:induction false} AtDepthMembers(blocks: seq<Block>, depths: seq<nat>, d: nat, b: Block)
    requires |blocks| == |depths|
    ensures b in AtDepth(blocks, depths, d) <==> HasDepth(blocks, depths, d, b)
    decreases |blocks|
  {
    if blocks != [] {
      var n := |blocks| - 1;
      AtDepthMembers(blocks[..n], depths[..n], d, b);
      if HasDepth(blocks[..n], depths[..n], d, b) {
        var i :| 0 <= i < n && blocks[..n][i] == b && depths[..n][i] == d;
        assert blocks[i] == b && depths[i] == d;
      }
    }
  }

  /** What all bands share. */
  datatype Frame = Frame(columns: nat, columnWidth: real, canvasWidth: real)

  predicate FrameFits(blocks: seq<Block>, f: Frame) {
    && f.columns >= 1 && f.columnWidth >= 0.0 && Sized(blocks)
    && forall i :: 0 <= i < |blocks| ==> blocks[i].width <= f.columnWidth
  }

  function BandAt(blocks: seq<Block>, depths: seq<nat>, f: Frame, d: nat, y: real): Band
    requires |blocks| == |depths|
  {
    var sorted := SortBlocks(AtDepth(blocks, depths, d));
    var active := if f.columns < |sorted| then f.columns else |sorted|;
    var bandWidth := Times(active, f.columnWidth) + (active - 1) as real * COLUMN_GAP;
    Band(sorted, active, f.columnWidth, (f.canvasWidth - bandWidth) / 2.0, y)
  }

  lemma BandAtFits(blocks: seq<Block>, depths: seq<nat>, f: Frame, d: nat, y: real)
    requires |blocks| == |depths| && FrameFits(blocks, f)
    ensures var b := BandAt(blocks, depths, f, d, y); b.blocks != [] ==> BandFits(b)
  {
    var sorted := BandAt(blocks, depths, f, d, y).blocks;
    SortKeeps(AtDepth(blocks, depths, d));
    forall i | 0 <= i < |sorted| ensures 0.0 <= sorted[i].width <= f.columnWidth && sorted[i].height >= 0.0 {
      assert sorted[i] in multiset(sorted);
      AtDepthMembers(blocks, depths, d, sorted[i]);
    }
  }

  // ---- Bands below each other ----------------------------------------------------------

  function BandEnd(b: Band): real
    requires BandFits(b)
  {
    b.y + Tallest(Heights(b, |b.blocks|)) + BAND_GAP
  }

  /** Where the band of a depth begins. A depth without blocks has no band. */
  function Top(blocks: seq<Block>, depths: seq<nat>, f: Frame, start: real, d: nat): real
    requires |blocks| == |depths| && FrameFits(blocks, f)
  {
    if d == 0 then start
    else
      var y := Top(blocks, depths, f, start, d - 1);
      var b := BandAt(blocks, depths, f, d - 1, y);
      if b.blocks == [] then y
      else
        BandAtFits(blocks, depths, f, d - 1, y);
        BandEnd(b)
  }

  function LaidOut(blocks: seq<Block>, depths: seq<nat>, f: Frame, start: real, d: nat): Band
    requires |blocks| == |depths| && FrameFits(blocks, f)
  {
    BandAt(blocks, depths, f, d, Top(blocks, depths, f, start, d))
  }

  /** `p` is a block of the band of depth `d`, where that band puts it. */
  ghost predicate InBand(blocks: seq<Block>, depths: seq<nat>, f: Frame, start: real, d: nat, p: Placed)
    requires |blocks| == |depths| && FrameFits(blocks, f)
  {
    var b := LaidOut(blocks, depths, f, start, d);
    BandFits(b) && exists k :: 0 <= k < |b.blocks| && p == PlacedAt(b, k)
  }

  lemma WithinBand(b: Band, k: nat)
    requires BandFits(b) && k < |b.blocks|
    ensures b.y <= PlacedAt(b, k).position.y && Bottom(PlacedAt(b, k)) + GROUP_GAP + BAND_GAP <= BandEnd(b)
  {
    hide PlacedAt, Tallest, Heights;
    HeightBelow(b, k, |b.blocks|);
    assert Heights(b, |b.blocks|)[ColumnOf(b, k)] <= Tallest(Heights(b, |b.blocks|));
  }

  lemma BandEndGrows(b: Band)
    requires BandFits(b)
    ensures b.y <= BandEnd(b)
  {
    HeightsGrow(b, 0, |b.blocks|);
    assert Heights(b, |b.blocks|)[0] <= Tallest(Heights(b, |b.blocks|));
  }

  lemma BandAtKeepsTop(blocks: seq<Block>, depths: seq<nat>, f: Frame, d: nat, y: real)
    requires |blocks| == |depths|
    ensures BandAt(blocks, depths, f, d, y).y == y
  {
  }

  lemma {:induction false} TopGrows(blocks: seq<Block>, depths: seq<nat>, f: Frame, start: real, d: nat, e: nat)
    requires |blocks| == |depths| && FrameFits(blocks, f) && d <= e
    ensures Top(blocks, depths, f, start, d) <= Top(blocks, depths, f, start, e)
    decreases e
  {
    hide BandAt, BandEnd, BandFits, FrameFits;
    if d < e {
      TopGrows(blocks, depths, f, start, d, e - 1);
      var y := Top(blocks, depths, f, start, e - 1);
      BandAtKeepsTop(blocks, depths, f, e - 1, y);
      var b := BandAt(blocks, depths, f, e - 1, y);
      if b.blocks != [] {
        BandAtFits(blocks, depths, f, e - 1, y);
        BandEndGrows(b);
      }
    }
  }

  /** A block of a greater depth is placed strictly below. */
  lemma DeeperIsBelow(blocks: seq<Block>, depths: seq<nat>, f: Frame, start: real, d: nat, e: nat, p: Placed, q: Placed)
    requires |blocks| == |depths| && FrameFits(blocks, f) && d < e
    requires InBand(blocks, depths, f, start, d, p) && InBand(blocks, depths, f, start, e, q)
    ensures Bottom(p) + GROUP_GAP + BAND_GAP <= q.position.y
  {
    var b, c := LaidOut(blocks, depths, f, start, d), LaidOut(blocks, depths, f, start, e);
    var i :| 0 <= i < |b.blocks| && p == PlacedAt(b, i);
    var j :| 0 <= j < |c.blocks| && q == PlacedAt(c, j);
    hide BandAt, PlacedAt, BandEnd, BandFits, InBand;
    WithinBand(b, i);
    WithinBand(c, j);
    TopGrows(blocks, depths, f, start, d + 1, e);
  }

  // ---- The layout ----------------------------------------------------------------------

  predicate DistinctGroups(orchestration: Option<Block>, blocks: seq<Block>) {
    && (forall i, j :: 0 <= i < j < |blocks| ==> blocks[i].groupId != blocks[j].groupId)
    && (orchestration.Some? ==> forall i :: 0 <= i < |blocks| ==> blocks[i].groupId != orchestration.value.groupId)
  }

  function At(positions: map<Id, Position>, b: Block): Placed
    requires b.groupId in positions
  {
    Placed(b, positions[b.groupId])
  }

  /** Every block with one of these depths is where its band puts it. */
  ghost predicate PlacedUpTo(blocks: seq<Block>, depths: seq<nat>, f: Frame, start: real, d: nat, positions: map<Id, Position>)
    requires |blocks| == |depths| && FrameFits(blocks, f)
  {
    forall i :: 0 <= i < |blocks| && depths[i] < d ==>
                  blocks[i].groupId in positions && InBand(blocks, depths, f, start, depths[i], At(positions, blocks[i]))
  }

  /** No two groups overlap. */
  ghost predicate NoOverlap(blocks: seq<Block>, positions: map<Id, Position>)
    requires forall i :: 0 <= i < |blocks| ==> blocks[i].groupId in positions
  {
    forall i, j :: 0 <= i < j < |blocks| ==> Apart(At(positions, blocks[i]), At(positions, blocks[j]))
  }

  lemma SameBandApart(blocks: seq<Block>, depths: seq<nat>, f: Frame, start: real, d: nat, p: Placed, q: Placed)
    requires |blocks| == |depths| && FrameFits(blocks, f) && p.block != q.block
    requires InBand(blocks, depths, f, start, d, p) && InBand(blocks, depths, f, start, d, q)
    ensures Apart(p, q)
  {
    var b := LaidOut(blocks, depths, f, start, d);
    var i :| 0 <= i < |b.blocks| && p == PlacedAt(b, i);
    var j :| 0 <= j < |b.blocks| && q == PlacedAt(b, j);
    assert i != j;
    hide PlacedAt, LaidOut, BandFits;
    if i < j { BandIsApart(b, i, j); } else { BandIsApart(b, j, i); }
  }

  lemma LayoutIsApart(blocks: seq<Block>, depths: seq<nat>, f: Frame, start: real, d: nat, positions: map<Id, Position>)
    requires |blocks| == |depths| && FrameFits(blocks, f) && DistinctGroups(None, blocks)
    requires PlacedUpTo(blocks, depths, f, start, d, positions) && forall i :: 0 <= i < |depths| ==> depths[i] < d
    ensures NoOverlap(blocks, positions)
    ensures forall i, j :: 0 <= i < |blocks| && 0 <= j < |blocks| && depths[i] < depths[j] ==>
                             Bottom(At(positions, blocks[i])) + BAND_GAP <= positions[blocks[j].groupId].y
  {
    hide InBand, FrameFits;
    forall i, j | 0 <= i < |blocks| && 0 <= j < |blocks| && depths[i] < depths[j]
      ensures Bottom(At(positions, blocks[i])) + BAND_GAP <= positions[blocks[j].groupId].y
    {
      DeeperIsBelow(blocks, depths, f, start, depths[i], depths[j], At(positions, blocks[i]), At(positions, blocks[j]));
    }
    forall i, j | 0 <= i < j < |blocks| ensures Apart(At(positions, blocks[i]), At(positions, blocks[j])) {
      if depths[i] == depths[j] {
        SameBandApart(blocks, depths, f, start, depths[i], At(positions, blocks[i]), At(positions, blocks[j]));
      }
    }
  }

  /** The placed blocks were noted, and the others stay where they were. */
  ghost predicate Noted(before: map<Id, Position>, placed: seq<Placed>, after: map<Id, Position>) {
    && (forall g :: g in before ==> g in after)
    && (forall k :: 0 <= k < |placed| ==> placed[k].block.groupId in after)
    && (forall g :: g in after ==> Stays(before, placed, after, g) || IsPlaced(placed, after, g))
  }

  ghost predicate Stays(before: map<Id, Position>, placed: seq<Placed>, after: map<Id, Position>, g: Id)
    requires g in after
  {
    g in before && after[g] == before[g] && forall k :: 0 <= k < |placed| ==> placed[k].block.groupId != g
  }

  ghost predicate IsPlaced(placed: seq<Placed>, after: map<Id, Position>, g: Id)
    requires g in after
  {
    exists k :: 0 <= k < |placed| && placed[k].block.groupId == g && placed[k].position == after[g]
  }

  method Note(positions: map<Id, Position>, placed: seq<Placed>) returns (r: map<Id, Position>)
    ensures Noted(positions, placed, r)
  {
    r := positions;
    for n := 0 to |placed|
      invariant Noted(positions, placed[..n], r)
    {
      NotedOneMore(positions, placed, n, r);
      r := r[placed[n].block.groupId := placed[n].position];
    }
    assert placed[..|placed|] == placed;
  }

  lemma NotedOneMore(before: map<Id, Position>, placed: seq<Placed>, n: nat, after: map<Id, Position>)
    requires n < |placed| && Noted(before, placed[..n], after)
    ensures Noted(before, placed[..n + 1], after[placed[n].block.groupId := placed[n].position])
  {
    var r := after[placed[n].block.groupId := placed[n].position];
    var more := placed[..n + 1];
    assert more[..n] == placed[..n] && more[n] == placed[n];
    forall g | g in r ensures Stays(before, more, r, g) || IsPlaced(more, r, g) {
      if g == placed[n].block.groupId {
        assert more[n].position == r[g];
      } else if IsPlaced(placed[..n], after, g) {
        var k :| 0 <= k < n && placed[..n][k].block.groupId == g && placed[..n][k].position == after[g];
        assert more[k] == placed[..n][k];
      } else {
        assert Stays(before, placed[..n], after, g);
        forall k | 0 <= k < |more| ensures more[k].block.groupId != g {
          if k < n { assert more[k] == placed[..n][k]; }
        }
      }
    }
  }

  lemma LaidOutBlocks(blocks: seq<Block>, depths: seq<nat>, f: Frame, start: real, d: nat, b: Block)
    requires |blocks| == |depths| && FrameFits(blocks, f)
    ensures b in LaidOut(blocks, depths, f, start, d).blocks <==> HasDepth(blocks, depths, d, b)
  {
    hide Top, AtDepth, SortBlocks, HasDepth, FrameFits;
    SortKeeps(AtDepth(blocks, depths, d));
    AtDepthMembers(blocks, depths, d, b);
    assert b in AtDepth(blocks, depths, d) <==> b in multiset(AtDepth(blocks, depths, d));
    assert b in SortBlocks(AtDepth(blocks, depths, d)) <==> b in multiset(SortBlocks(AtDepth(blocks, depths, d)));
  }

  /** What a band places: each of its blocks, where the band puts it. */
  ghost predicate PlacedBy(b: Band, placed: seq<Placed>) {
    BandFits(b) && |placed| == |b.blocks| && forall k :: 0 <= k < |b.blocks| ==> placed[k] == PlacedAt(b, k)
  }

  /** A placed block is one of the depth of the band. */
  lemma OwnerOf(blocks: seq<Block>, depths: seq<nat>, f: Frame, start: real, d: nat, placed: seq<Placed>, k: nat) returns (i: nat)
    requires |blocks| == |depths| && FrameFits(blocks, f)
    requires PlacedBy(LaidOut(blocks, depths, f, start, d), placed) && k < |placed|
    ensures i < |blocks| && blocks[i] == placed[k].block && depths[i] == d
    ensures InBand(blocks, depths, f, start, d, placed[k])
  {
    var b := LaidOut(blocks, depths, f, start, d);
    LaidOutBlocks(blocks, depths, f, start, d, b.blocks[k]);
    hide LaidOut, FrameFits;
    i :| 0 <= i < |blocks| && blocks[i] == b.blocks[k] && depths[i] == d;
  }

  lemma NotedBlock(blocks: seq<Block>, depths: seq<nat>, f: Frame, start: real, d: nat,
                   before: map<Id, Position>, placed: seq<Placed>, after: map<Id, Position>, i: nat)
    requires |blocks| == |depths| && FrameFits(blocks, f) && DistinctGroups(None, blocks)
    requires PlacedUpTo(blocks, depths, f, start, d, before)
    requires PlacedBy(LaidOut(blocks, depths, f, start, d), placed) && Noted(before, placed, after)
    requires i < |blocks| && depths[i] <= d
    ensures blocks[i].groupId in after && InBand(blocks, depths, f, start, depths[i], At(after, blocks[i]))
  {
    var b, g := LaidOut(blocks, depths, f, start, d), blocks[i].groupId;
    if depths[i] == d {
      LaidOutBlocks(blocks, depths, f, start, d, blocks[i]);
      assert blocks[i] in b.blocks;
      var n :| 0 <= n < |b.blocks| && b.blocks[n] == blocks[i];
      assert placed[n].block == blocks[i];
    }
    hide LaidOut, FrameFits, InBand, PlacedBy;
    if IsPlaced(placed, after, g) {
      var k :| 0 <= k < |placed| && placed[k].block.groupId == g && placed[k].position == after[g];
      var owner := OwnerOf(blocks, depths, f, start, d, placed, k);
      assert owner == i;
    }
  }

  /** After a band was noted, the blocks of its depth are placed too, and no other has moved. */
  lemma BandNoted(blocks: seq<Block>, depths: seq<nat>, f: Frame, start: real, d: nat,
                  before: map<Id, Position>, placed: seq<Placed>, after: map<Id, Position>)
    requires |blocks| == |depths| && FrameFits(blocks, f) && DistinctGroups(None, blocks)
    requires PlacedUpTo(blocks, depths, f, start, d, before)
    requires PlacedBy(LaidOut(blocks, depths, f, start, d), placed) && Noted(before, placed, after)
    ensures PlacedUpTo(blocks, depths, f, start, d + 1, after)
  {
    forall i | 0 <= i < |blocks| && depths[i] < d + 1
      ensures blocks[i].groupId in after && InBand(blocks, depths, f, start, depths[i], At(after, blocks[i]))
    {
      NotedBlock(blocks, depths, f, start, d, before, placed, after, i);
    }
  }

  lemma NothingAtDepth(blocks: seq<Block>, depths: seq<nat>, f: Frame, start: real, d: nat, positions: map<Id, Position>)
    requires |blocks| == |depths| && FrameFits(blocks, f)
    requires PlacedUpTo(blocks, depths, f, start, d, positions) && LaidOut(blocks, depths, f, start, d).blocks == []
    ensures PlacedUpTo(blocks, depths, f, start, d + 1, positions)
  {
    forall i | 0 <= i < |blocks| ensures depths[i] != d {
      LaidOutBlocks(blocks, depths, f, start, d, blocks[i]);
    }
  }

  // ---- The algorithm -------------------------------------------------------------------

  /** The depths are those of the context packs, if none precedes itself; a block without one has depth 0. */
  ghost predicate DepthsRight(preds: Relation, blocks: seq<Block>, depths: seq<nat>)
    requires |depths| <= |blocks|
  {
    forall i :: 0 <= i < |depths| ==>
                  if blocks[i].contextPackId.None? then depths[i] == 0
                  else Acyclic(preds) ==> IsDepth(preds, blocks[i].contextPackId.value, depths[i])
  }

  method FindDepths(blocks: seq<Block>, preds: Relation) returns (depths: seq<nat>)
    requires Closed(preds, Contexts(blocks))
    ensures |depths| == |blocks| && DepthsRight(preds, blocks, depths)
  {
    var finder := new DepthFinder(preds, Contexts(blocks));
    depths := [];
    for i := 0 to |blocks|
      invariant |depths| == i && finder.Valid() && DepthsRight(preds, blocks, depths)
    {
      var depth := 0;
      if blocks[i].contextPackId.Some? {
        depth := finder.ContextDepth(blocks[i].contextPackId.value, {});
      }
      depths := depths + [depth];
    }
  }

  function MaxDepth(depths: seq<nat>): (m: nat)
    ensures forall i :: 0 <= i < |depths| ==> depths[i] <= m
  {
    if depths == [] then 0
    else
      var before, last := MaxDepth(depths[..|depths| - 1]), depths[|depths| - 1];
      if last > before then last else before
  }

  function MaxWidth(blocks: seq<Block>): (w: real)
    requires Sized(blocks)
    ensures w >= 0.0 && forall i :: 0 <= i < |blocks| ==> blocks[i].width <= w
  {
    if blocks == [] then 0.0
    else
      var before, last := MaxWidth(blocks[..|blocks| - 1]), blocks[|blocks| - 1].width;
      if last > before then last else before
  }

  /** The number of blocks of the widest band up to a depth. */
  function WidestBand(blocks: seq<Block>, depths: seq<nat>, d: nat): nat
    requires |blocks| == |depths|
  {
    var here := |AtDepth(blocks, depths, d)|;
    var before := if d == 0 then 0 else WidestBand(blocks, depths, d - 1);
    if here > before then here else before
  }

  function FrameFor(orchestration: Option<Block>, blocks: seq<Block>, depths: seq<nat>, requestedColumns: int): (f: Frame)
    requires |blocks| == |depths| && Sized(blocks)
    ensures FrameFits(blocks, f)
  {
    var widest := WidestBand(blocks, depths, MaxDepth(depths));
    var wanted := if requestedColumns < widest then requestedColumns else widest;
    var columns := if wanted > 1 then wanted else 1;
    var columnWidth := MaxWidth(blocks);
    var packAreaWidth := Times(columns, columnWidth) + (columns - 1) as real * COLUMN_GAP;
    var orchestrationWidth := if orchestration.Some? then orchestration.value.width else 0.0;
    Frame(columns, columnWidth, if packAreaWidth > orchestrationWidth then packAreaWidth else orchestrationWidth)
  }

  /** Where the bands begin, and the position of the orchestration group. */
  function StartY(orchestration: Option<Block>): real {
    if orchestration.Some? then MARGIN + orchestration.value.height + ORCHESTRATION_GAP else MARGIN
  }

  method PlaceBands(blocks: seq<Block>, depths: seq<nat>, f: Frame, start: real, positions: map<Id, Position>)
    returns (r: map<Id, Position>)
    requires |blocks| == |depths| && FrameFits(blocks, f) && DistinctGroups(None, blocks)
    ensures PlacedUpTo(blocks, depths, f, start, MaxDepth(depths) + 1, r)
    ensures forall g :: g in positions && (forall i :: 0 <= i < |blocks| ==> blocks[i].groupId != g) ==> g in r && r[g] == positions[g]
  {
    r := positions;
    var bandY := start;
    hide LaidOut, BandAt, InBand, FrameFits, MaxDepth, DistinctGroups, Noted, Heights, Tallest, PlacedAt;
    for d := 0 to MaxDepth(depths) + 1
      invariant bandY == Top(blocks, depths, f, start, d)
      invariant PlacedUpTo(blocks, depths, f, start, d, r)
      invariant forall g :: g in positions && (forall i :: 0 <= i < |blocks| ==> blocks[i].groupId != g) ==> g in r && r[g] == positions[g]
    {
      var band := BandAt(blocks, depths, f, d, bandY);
      LaidOutIsBand(blocks, depths, f, start, d);
      if band.blocks == [] {
        NothingAtDepth(blocks, depths, f, start, d, r);
      } else {
        BandAtFits(blocks, depths, f, d, bandY);
        BandAtKeepsTop(blocks, depths, f, d, bandY);
        var placed, nextY := PlaceBand(band);
        var next := Note(r, placed);
        BandNoted(blocks, depths, f, start, d, r, placed, next);
        OthersStay(blocks, depths, f, start, d, r, placed, next);
        r, bandY := next, nextY;
      }
    }
  }

  lemma LaidOutIsBand(blocks: seq<Block>, depths: seq<nat>, f: Frame, start: real, d: nat)
    requires |blocks| == |depths| && FrameFits(blocks, f)
    ensures LaidOut(blocks, depths, f, start, d) == BandAt(blocks, depths, f, d, Top(blocks, depths, f, start, d))
  {
  }

  lemma OthersStay(blocks: seq<Block>, depths: seq<nat>, f: Frame, start: real, d: nat,
                   before: map<Id, Position>, placed: seq<Placed>, after: map<Id, Position>)
    requires |blocks| == |depths| && FrameFits(blocks, f)
    requires PlacedBy(LaidOut(blocks, depths, f, start, d), placed) && Noted(before, placed, after)
    ensures forall g :: g in before && (forall i :: 0 <= i < |blocks| ==> blocks[i].groupId != g) ==> g in after && after[g] == before[g]
  {
    hide LaidOut, FrameFits, PlacedBy;
    forall g | g in before && (forall i :: 0 <= i < |blocks| ==> blocks[i].groupId != g) ensures g in after && after[g] == before[g] {
      if IsPlaced(placed, after, g) {
        var k :| 0 <= k < |placed| && placed[k].block.groupId == g && placed[k].position == after[g];
        var owner := OwnerOf(blocks, depths, f, start, d, placed, k);
      }
    }
  }

  /** Every group lies strictly below the groups of the context packs that precede its own. */
  ghost predicate BelowPredecessors(preds: Relation, blocks: seq<Block>, positions: map<Id, Position>)
    requires forall i :: 0 <= i < |blocks| ==> blocks[i].groupId in positions
  {
    forall i, j :: 0 <= i < |blocks| && 0 <= j < |blocks| && blocks[i].contextPackId.Some? && blocks[j].contextPackId.Some?
                   && blocks[i].contextPackId.value in Before(preds, blocks[j].contextPackId.value) ==>
                     Bottom(At(positions, blocks[i])) + BAND_GAP <= positions[blocks[j].groupId].y
  }

  lemma DepthsPutPredecessorsAbove(preds: Relation, blocks: seq<Block>, depths: seq<nat>, positions: map<Id, Position>)
    requires |depths| == |blocks| && DepthsRight(preds, blocks, depths) && Acyclic(preds)
    requires forall i :: 0 <= i < |blocks| ==> blocks[i].groupId in positions
    requires forall i, j :: 0 <= i < |blocks| && 0 <= j < |blocks| && depths[i] < depths[j] ==>
                              Bottom(At(positions, blocks[i])) + BAND_GAP <= positions[blocks[j].groupId].y
    ensures BelowPredecessors(preds, blocks, positions)
  {
    forall i, j | 0 <= i < |blocks| && 0 <= j < |blocks| && blocks[i].contextPackId.Some? && blocks[j].contextPackId.Some?
                  && blocks[i].contextPackId.value in Before(preds, blocks[j].contextPackId.value)
      ensures depths[i] < depths[j]
    {
      DeeperThanPredecessors(preds, blocks[i].contextPackId.value, blocks[j].contextPackId.value, depths[i], depths[j]);
    }
  }

  /** Along a chain of packs the groups lie lower and lower. */
  lemma {:induction false} ChainGoesDown(preds: Relation, blocks: seq<Block>, positions: map<Id, Position>, chain: seq<Id>, c: Id,
                                         i: nat, j: nat)
    requires Sized(blocks) && Closed(preds, Contexts(blocks)) && forall k :: 0 <= k < |blocks| ==> blocks[k].groupId in positions
    requires BelowPredecessors(preds, blocks, positions) && Chain(preds, chain, c) && |chain| >= 2
    requires i < |blocks| && j < |blocks| && blocks[i].contextPackId == Some(chain[0]) && blocks[j].contextPackId == Some(c)
    ensures positions[blocks[i].groupId].y < positions[blocks[j].groupId].y
    decreases |chain|
  {
    var before, p := chain[..|chain| - 1], chain[|chain| - 2];
    ChainShortens(preds, chain, c);
    if |chain| > 2 {
      assert before[0] == chain[0];
      assert p in Contexts(blocks);
      var k :| 0 <= k < |blocks| && blocks[k].contextPackId == Some(p);
      ChainGoesDown(preds, blocks, positions, before, p, i, k);
      assert Bottom(At(positions, blocks[k])) + BAND_GAP <= positions[blocks[j].groupId].y;
    } else {
      assert Bottom(At(positions, blocks[i])) + BAND_GAP <= positions[blocks[j].groupId].y;
    }
  }

  /** Only without cycles can every group lie strictly below its predecessors. */
  lemma BelowNeedsNoCycles(preds: Relation, blocks: seq<Block>, positions: map<Id, Position>)
    requires Sized(blocks) && Closed(preds, Contexts(blocks)) && forall i :: 0 <= i < |blocks| ==> blocks[i].groupId in positions
    requires BelowPredecessors(preds, blocks, positions)
    ensures Acyclic(preds)
  {
    forall chain, c | Chain(preds, chain, c) && |chain| >= 2 ensures chain[0] != c {
      if chain[0] == c {
        assert c in Before(preds, chain[1]) && c in Contexts(blocks);
        var i :| 0 <= i < |blocks| && blocks[i].contextPackId == Some(c);
        ChainGoesDown(preds, blocks, positions, chain, c, i, i);
      }
    }
  }

  lemma OrchestrationIsApart(orchestration: Block, blocks: seq<Block>, depths: seq<nat>, f: Frame, d: nat, positions: map<Id, Position>)
    requires |blocks| == |depths| && FrameFits(blocks, f) && orchestration.groupId in positions
    requires positions[orchestration.groupId].y == MARGIN && forall i :: 0 <= i < |depths| ==> depths[i] < d
    requires PlacedUpTo(blocks, depths, f, StartY(Some(orchestration)), d, positions)
    ensures forall i :: 0 <= i < |blocks| ==> Apart(At(positions, orchestration), At(positions, blocks[i]))
  {
    var start := StartY(Some(orchestration));
    hide FrameFits, BandAt;
    forall i | 0 <= i < |blocks| ensures positions[blocks[i].groupId].y >= start {
      var b := LaidOut(blocks, depths, f, start, depths[i]);
      assert InBand(blocks, depths, f, start, depths[i], At(positions, blocks[i]));
      var k :| 0 <= k < |b.blocks| && At(positions, blocks[i]) == PlacedAt(b, k);
      WithinBand(b, k);
      BandAtKeepsTop(blocks, depths, f, depths[i], Top(blocks, depths, f, start, depths[i]));
      TopGrows(blocks, depths, f, start, 0, depths[i]);
    }
  }

  lemma DepthsDecideWhatIsBelow(preds: Relation, blocks: seq<Block>, depths: seq<nat>, positions: map<Id, Position>)
    requires |depths| == |blocks| && DepthsRight(preds, blocks, depths) && Sized(blocks) && Closed(preds, Contexts(blocks))
    requires forall i :: 0 <= i < |blocks| ==> blocks[i].groupId in positions
    requires forall i, j :: 0 <= i < |blocks| && 0 <= j < |blocks| && depths[i] < depths[j] ==>
                              Bottom(At(positions, blocks[i])) + BAND_GAP <= positions[blocks[j].groupId].y
    ensures BelowPredecessors(preds, blocks, positions) <==> Acyclic(preds)
  {
    hide Acyclic, DepthsRight, BelowPredecessors;
    if Acyclic(preds) {
      DepthsPutPredecessorsAbove(preds, blocks, depths, positions);
    }
    if BelowPredecessors(preds, blocks, positions) {
      BelowNeedsNoCycles(preds, blocks, positions);
    }
  }
}
