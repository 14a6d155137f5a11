/**
 * The layout of trace groups: one band for each depth, and in each band columns that are filled with
 * the next group wherever the column is shortest.
 */
module TraceLayout {
  import opened Domain

  /** A group of steps. `firstSequence` is the least sequence number among them. */
  datatype Block = Block(groupId: Id, contextPackId: Option<Id>, width: real, height: real, firstSequence: int)

  datatype Step = Step(id: Id, parentStepId: Option<Id>, contextPackId: Option<Id>)

  datatype Position = Position(x: real, y: real)

  datatype Placed = Placed(block: Block, position: Position)

  const COLUMN_GAP := 86.0
  const GROUP_GAP := 92.0
  const BAND_GAP := 52.0
  const ORCHESTRATION_GAP := 144.0
  const MARGIN := 24.0

  predicate Sized(blocks: seq<Block>) {
    forall i :: 0 <= i < |blocks| ==> blocks[i].width >= 0.0 && blocks[i].height >= 0.0
  }

  /** One is beside or above the other, with a gap of at least 52 between them. */
  predicate Apart(a: Placed, b: Placed) {
    || a.position.x + a.block.width + BAND_GAP <= b.position.x
    || b.position.x + b.block.width + BAND_GAP <= a.position.x
    || a.position.y + a.block.height + BAND_GAP <= b.position.y
    || b.position.y + b.block.height + BAND_GAP <= a.position.y
  }

  function Bottom(p: Placed): real {
    p.position.y + p.block.height
  }

  // ---- One band ------------------------------------------------------------------------

  /** The first of the shortest columns. */
  function Shortest(heights: seq<real>): (c: nat)
    requires heights != []
    ensures c < |heights|
    ensures forall k :: 0 <= k < |heights| ==> heights[c] <= heights[k]
    ensures forall k :: 0 <= k < c ==> heights[c] < heights[k]
  {
    if |heights| == 1 then 0
    else
      var best := Shortest(heights[..|heights| - 1]);
      if heights[|heights| - 1] < heights[best] then |heights| - 1 else best
  }

  function Zeros(n: nat): (r: seq<real>)
    ensures |r| == n && forall k :: 0 <= k < n ==> r[k] == 0.0
  {
    seq(n, _ => 0.0)
  }

  /** A band: its blocks, its columns and where it begins. */
  datatype Band = Band(blocks: seq<Block>, columns: nat, columnWidth: real, x: real, y: real)

  predicate BandFits(b: Band) {
    && b.columns >= 1 && b.columnWidth >= 0.0 && Sized(b.blocks)
    && forall i :: 0 <= i < |b.blocks| ==> b.blocks[i].width <= b.columnWidth
  }

  /** The column of the next block: the first ones get a column each, the others the shortest. */
  function ColumnFor(heights: seq<real>, index: nat): (c: nat)
    requires heights != []
    ensures c < |heights|
  {
    if index < |heights| then index else Shortest(heights)
  }

  /** How far the columns are filled by the first `k` blocks. */
  function Heights(b: Band, k: nat): (r: seq<real>)
    requires BandFits(b) && k <= |b.blocks|
    ensures |r| == b.columns
    decreases k
  {
    if k == 0 then Zeros(b.columns)
    else
      var before := Heights(b, k - 1);
      var c := ColumnFor(before, k - 1);
      before[c := before[c] + b.blocks[k - 1].height + GROUP_GAP]
  }

  function ColumnOf(b: Band, k: nat): (c: nat)
    requires BandFits(b) && k < |b.blocks|
    ensures c < b.columns
  {
    ColumnFor(Heights(b, k), k)
  }

  function ColumnX(b: Band, c: nat): real {
    b.x + Times(c, b.columnWidth + COLUMN_GAP)
  }

  function Times(n: nat, t: real): real {
    n as real * t
  }

  function PlacedAt(b: Band, k: nat): Placed
    requires BandFits(b) && k < |b.blocks|
  {
    var c := ColumnOf(b, k);
    Placed(b.blocks[k], Position(ColumnX(b, c) + (b.columnWidth - b.blocks[k].width) / 2.0, b.y + Heights(b, k)[c]))
  }

  function Tallest(heights: seq<real>): (h: real)
    requires heights != []
    ensures forall k :: 0 <= k < |heights| ==> heights[k] <= h
    ensures exists k :: 0 <= k < |heights| && heights[k] == h
  {
    if |heights| == 1 then heights[0]
    else
      var h := Tallest(heights[..|heights| - 1]);
      if heights[|heights| - 1] > h then heights[|heights| - 1] else h
  }

  lemma {:induction false} HeightsGrow(b: Band, j: nat, k: nat)
    requires BandFits(b) && j <= k <= |b.blocks|
    ensures forall c :: 0 <= c < b.columns ==> 0.0 <= Heights(b, j)[c] <= Heights(b, k)[c]
    decreases k
  {
    if k > 0 {
      HeightsGrow(b, if j < k then j else j - 1, k - 1);
      if j == k { HeightsGrow(b, k - 1, k - 1); }
    }
  }

  /** After a block, its column is filled to below the block. */
  lemma HeightBelow(b: Band, j: nat, k: nat)
    requires BandFits(b) && j < k <= |b.blocks|
    ensures Bottom(PlacedAt(b, j)) + GROUP_GAP <= b.y + Heights(b, k)[ColumnOf(b, j)]
    ensures b.y <= PlacedAt(b, j).position.y
  {
    HeightsGrow(b, j + 1, k);
    HeightsGrow(b, j, j);
  }

  lemma TimesGrows(c: nat, d: nat, t: real)
    requires c < d && t >= 0.0
    ensures Times(c, t) + t <= Times(d, t)
  {
    assert (d - c - 1) as real * t >= 0.0;
    assert d as real * t == c as real * t + t + (d - c - 1) as real * t;
  }

  lemma ColumnXApart(b: Band, c: nat, d: nat)
    requires c < d && b.columnWidth >= 0.0
    ensures ColumnX(b, c) + b.columnWidth + COLUMN_GAP <= ColumnX(b, d)
  {
    hide Times;
    TimesGrows(c, d, b.columnWidth + COLUMN_GAP);
  }

  /** A block lies within its column. */
  lemma WithinColumn(b: Band, k: nat)
    requires BandFits(b) && k < |b.blocks|
    ensures var p, c := PlacedAt(b, k), ColumnOf(b, k);
            ColumnX(b, c) <= p.position.x && p.position.x + p.block.width <= ColumnX(b, c) + b.columnWidth
  {
    hide ColumnX, ColumnOf, Heights;
  }

  /** No two blocks of a band come closer than the gap. */
  lemma BandIsApart(b: Band, i: nat, j: nat)
    requires BandFits(b) && i < j < |b.blocks|
    ensures Apart(PlacedAt(b, i), PlacedAt(b, j))
  {
    hide ColumnX, ColumnOf, Heights;
    var c, d := ColumnOf(b, i), ColumnOf(b, j);
    WithinColumn(b, i);
    WithinColumn(b, j);
    if c == d {
      HeightBelow(b, i, j);
    } else if c < d {
      ColumnXApart(b, c, d);
    } else {
      ColumnXApart(b, d, c);
    }
  }

  method ShortestColumn(columnHeights: array<real>) returns (shortest: nat)
    requires columnHeights.Length > 0
    ensures shortest < columnHeights.Length && shortest == Shortest(columnHeights[..])
  {
    shortest := 0;
    for candidate := 1 to columnHeights.Length
      invariant shortest < candidate && shortest == Shortest(columnHeights[..candidate])
    {
      assert columnHeights[..candidate + 1][..candidate] == columnHeights[..candidate];
      if columnHeights[candidate] < columnHeights[shortest] {
        shortest := candidate;
      }
    }
    assert columnHeights[..columnHeights.Length] == columnHeights[..];
  }

  /** Places the blocks of a band, and returns where the next band begins. */
  method PlaceBand(b: Band) returns (placed: seq<Placed>, nextY: real)
    requires BandFits(b)
    ensures |placed| == |b.blocks| && forall k :: 0 <= k < |b.blocks| ==> placed[k] == PlacedAt(b, k)
    ensures nextY == b.y + Tallest(Heights(b, |b.blocks|)) + BAND_GAP
  {
    hide Tallest, Shortest;
    var columnHeights := new real[b.columns](_ => 0.0);
    placed := [];
    assert columnHeights[..] == Zeros(b.columns);
    for index := 0 to |b.blocks|
      invariant columnHeights[..] == Heights(b, index)
      invariant |placed| == index && forall k :: 0 <= k < index ==> placed[k] == PlacedAt(b, k)
    {
      var block := b.blocks[index];
      var column := index;
      if index >= columnHeights.Length {
        column := ShortestColumn(columnHeights);
      }
      ghost var before := columnHeights[..];
      assert column == ColumnOf(b, index);
      placed := placed + [Placed(block, Position(ColumnX(b, column) + (b.columnWidth - block.width) / 2.0, b.y + columnHeights[column]))];
      columnHeights[column] := columnHeights[column] + block.height + GROUP_GAP;
      assert columnHeights[..] == before[column := before[column] + block.height + GROUP_GAP];
    }
    nextY := b.y + Tallest(columnHeights[..]) + BAND_GAP;
  }
}
