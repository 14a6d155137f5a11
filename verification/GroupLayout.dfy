/**
 * Where the groups of a layout stand, told from their positions alone: the order and the columns of each
 * band, and where each band begins. The layout itself is at the end.
 */
module GroupLayout {
  import opened Domain
  import opened ContextDepth
  import opened TraceLayout
  import opened TraceGroups

  // ---- The order of a band ---------------------------------------------------------------

  /** By the first sequence number, and among equal ones as they came. */
  predicate Earlier(blocks: seq<Block>, i: nat, j: nat)
    requires i < |blocks| && j < |blocks|
  {
    blocks[i].firstSequence < blocks[j].firstSequence || (blocks[i].firstSequence == blocks[j].firstSequence && i < j)
  }

  ghost predicate Ascending(blocks: seq<Block>, order: seq<nat>)
    requires forall k :: 0 <= k < |order| ==> order[k] < |blocks|
  {
    forall j, k :: 0 <= j < k < |order| ==> Earlier(blocks, order[j], order[k])
  }

  /** All blocks of a depth, in their order. */
  ghost predicate IsOrder(blocks: seq<Block>, depths: seq<nat>, d: nat, order: seq<nat>)
    requires |blocks| == |depths|
  {
    && (forall k :: 0 <= k < |order| ==> order[k] < |blocks| && depths[order[k]] == d)
    && (forall i :: 0 <= i < |blocks| && depths[i] == d ==> i in order)
    && Ascending(blocks, order)
  }

  /** The blocks at these indices. */
  function Picked(blocks: seq<Block>, order: seq<nat>): seq<Block>
    requires forall k :: 0 <= k < |order| ==> order[k] < |blocks|
  {
    seq(|order|, k requires 0 <= k < |order| => blocks[order[k]])
  }

  /** Adds an index that is larger than the others at its place. */
  function InsertIndex(blocks: seq<Block>, order: seq<nat>, n: nat): (r: seq<nat>)
    requires n < |blocks| && forall k :: 0 <= k < |order| ==> order[k] < n
    ensures |r| == |order| + 1 && (forall i :: i in r <==> i in order || i == n)
    ensures forall k :: 0 <= k < |r| ==> r[k] <= n
  {
    if order != [] && blocks[n].firstSequence < blocks[order[|order| - 1]].firstSequence
    then InsertIndex(blocks, order[..|order| - 1], n) + [order[|order| - 1]]
    else order + [n]
  }

  lemma {:induction false} InsertIndexInserts(blocks: seq<Block>, order: seq<nat>, n: nat)
    requires n < |blocks| && forall k :: 0 <= k < |order| ==> order[k] < n
    ensures Picked(blocks, InsertIndex(blocks, order, n)) == Insert(Picked(blocks, order), blocks[n])
    decreases |order|
  {
    if order != [] && blocks[n].firstSequence < blocks[order[|order| - 1]].firstSequence {
      var before := order[..|order| - 1];
      assert Picked(blocks, order)[..|order| - 1] == Picked(blocks, before);
      InsertIndexInserts(blocks, before, n);
    }
  }

  lemma {:induction false} InsertIndexOrders(blocks: seq<Block>, order: seq<nat>, n: nat)
    requires n < |blocks| && forall k :: 0 <= k < |order| ==> order[k] < n
    requires Ascending(blocks, order)
    ensures Ascending(blocks, InsertIndex(blocks, order, n))
    decreases |order|
  {
    if order == [] {
      return;
    }
    var m := |order| - 1;
    var last, before := order[m], order[..m];
    if blocks[n].firstSequence < blocks[last].firstSequence {
      InsertIndexOrders(blocks, before, n);
      var inner := InsertIndex(blocks, before, n);
      forall i | i in inner ensures Earlier(blocks, i, last) {
        if i != n {
          var j :| 0 <= j < m && before[j] == i;
          assert Earlier(blocks, order[j], last);
        }
      }
      AscendingSnoc(blocks, inner, last);
    } else {
      forall i | i in order ensures Earlier(blocks, i, n) {
        var j :| 0 <= j <= m && order[j] == i;
        if j < m { assert Earlier(blocks, order[j], last); }
      }
      AscendingSnoc(blocks, order, n);
    }
  }

  lemma AscendingSnoc(blocks: seq<Block>, order: seq<nat>, n: nat)
    requires n < |blocks| && forall k :: 0 <= k < |order| ==> order[k] < |blocks|
    requires Ascending(blocks, order) && forall i :: i in order ==> Earlier(blocks, i, n)
    ensures Ascending(blocks, order + [n])
  {
    forall j, k | 0 <= j < k < |order| + 1 ensures Earlier(blocks, (order + [n])[j], (order + [n])[k]) {
      if k < |order| { assert Earlier(blocks, order[j], order[k]); } else { assert order[j] in order; }
    }
  }

  /** The sorted blocks of a depth are its blocks in their order. */
  lemma {:induction false} BandOrder(blocks: seq<Block>, depths: seq<nat>, d: nat) returns (order: seq<nat>)
    requires |blocks| == |depths|
    ensures IsOrder(blocks, depths, d, order)
    ensures Picked(blocks, order) == SortBlocks(AtDepth(blocks, depths, d))
    decreases |blocks|
  {
    if blocks == [] {
      return [];
    }
    var n := |blocks| - 1;
    var before := BandOrder(blocks[..n], depths[..n], d);
    hide AtDepth, SortBlocks, IsOrder, Picked, InsertIndex, Insert;
    SortSnoc(blocks, depths, d);
    OrderSnoc(blocks, depths, d, before);
    PickedSnoc(blocks, before);
    order := if depths[n] == d then InsertIndex(blocks, before, n) else before;
  }

  lemma PickedSnoc(blocks: seq<Block>, before: seq<nat>)
    requires blocks != [] && forall k :: 0 <= k < |before| ==> before[k] < |blocks| - 1
    ensures var rest := Picked(blocks[..|blocks| - 1], before);
            && Picked(blocks, before) == rest
            && Picked(blocks, InsertIndex(blocks, before, |blocks| - 1)) == Insert(rest, blocks[|blocks| - 1])
  {
    InsertIndexInserts(blocks, before, |blocks| - 1);
    hide InsertIndex, Insert;
    assert Picked(blocks, before) == Picked(blocks[..|blocks| - 1], before);
  }

  lemma OrderSnoc(blocks: seq<Block>, depths: seq<nat>, d: nat, before: seq<nat>)
    requires |blocks| == |depths| > 0 && IsOrder(blocks[..|blocks| - 1], depths[..|blocks| - 1], d, before)
    ensures forall k :: 0 <= k < |before| ==> before[k] < |blocks| - 1
    ensures IsOrder(blocks, depths, d, if depths[|blocks| - 1] == d then InsertIndex(blocks, before, |blocks| - 1) else before)
  {
    OrderStays(blocks, depths, d, before);
    if depths[|blocks| - 1] == d {
      LastIsInserted(blocks, depths, d, before);
    } else {
      hide Ascending;
    }
  }

  lemma LastIsInserted(blocks: seq<Block>, depths: seq<nat>, d: nat, before: seq<nat>)
    requires |blocks| == |depths| > 0 && depths[|blocks| - 1] == d
    requires forall k :: 0 <= k < |before| ==> before[k] < |blocks| - 1 && depths[before[k]] == d
    requires forall i :: 0 <= i < |blocks| - 1 && depths[i] == d ==> i in before
    requires Ascending(blocks, before)
    ensures IsOrder(blocks, depths, d, InsertIndex(blocks, before, |blocks| - 1))
  {
    var n := |blocks| - 1;
    InsertIndexOrders(blocks, before, n);
    var order := InsertIndex(blocks, before, n);
    hide Ascending, InsertIndex, IsOrder;
    forall k | 0 <= k < |order| ensures depths[order[k]] == d {
      assert order[k] in order;
    }
    IsOrderOf(blocks, depths, d, order);
  }

  lemma IsOrderOf(blocks: seq<Block>, depths: seq<nat>, d: nat, order: seq<nat>)
    requires |blocks| == |depths| && forall k :: 0 <= k < |order| ==> order[k] < |blocks| && depths[order[k]] == d
    requires forall i :: 0 <= i < |blocks| && depths[i] == d ==> i in order
    requires Ascending(blocks, order)
    ensures IsOrder(blocks, depths, d, order)
  {
  }

  lemma SortSnoc(blocks: seq<Block>, depths: seq<nat>, d: nat)
    requires |blocks| == |depths| > 0
    ensures var n := |blocks| - 1;
            var rest := SortBlocks(AtDepth(blocks[..n], depths[..n], d));
            SortBlocks(AtDepth(blocks, depths, d)) == if depths[n] == d then Insert(rest, blocks[n]) else rest
  {
    var n := |blocks| - 1;
    var rest, here := AtDepth(blocks[..n], depths[..n], d), AtDepth(blocks, depths, d);
    if depths[n] == d {
      assert here == rest + [blocks[n]] && here[..|here| - 1] == rest;
    } else {
      assert here == rest;
    }
  }

  lemma OrderStays(blocks: seq<Block>, depths: seq<nat>, d: nat, order: seq<nat>)
    requires |blocks| == |depths| > 0 && IsOrder(blocks[..|blocks| - 1], depths[..|blocks| - 1], d, order)
    ensures forall k :: 0 <= k < |order| ==> order[k] < |blocks| - 1 && depths[order[k]] == d
    ensures forall i :: 0 <= i < |blocks| - 1 && depths[i] == d ==> i in order
    ensures Ascending(blocks, order)
  {
    var n := |blocks| - 1;
    forall j, k | 0 <= j < k < |order| ensures Earlier(blocks, order[j], order[k]) {
      assert Earlier(blocks[..n], order[j], order[k]);
    }
    forall i | 0 <= i < n && depths[i] == d ensures i in order {
      assert depths[..n][i] == d;
    }
  }

  // ---- How many there are ------------------------------------------------------------------

  /** The blocks of a depth. */
  function Indices(depths: seq<nat>, d: nat): set<nat> {
    set i | 0 <= i < |depths| && depths[i] == d
  }

  lemma {:induction false} AtDepthCounts(blocks: seq<Block>, depths: seq<nat>, d: nat)
    requires |blocks| == |depths|
    ensures |AtDepth(blocks, depths, d)| == |Indices(depths, d)|
    decreases |blocks|
  {
    if blocks != [] {
      var n := |blocks| - 1;
      AtDepthCounts(blocks[..n], depths[..n], d);
      assert Indices(depths, d) == Indices(depths[..n], d) + if depths[n] == d then {n} else {};
    }
  }

  /** The size of the widest band. */
  ghost predicate IsWidest(depths: seq<nat>, widest: nat) {
    && (forall d: nat :: |Indices(depths, d)| <= widest)
    && exists d: nat :: |Indices(depths, d)| == widest
  }

  lemma {:induction false} WidestUpTo(blocks: seq<Block>, depths: seq<nat>, d: nat)
    requires |blocks| == |depths|
    ensures forall e :: 0 <= e <= d ==> |Indices(depths, e)| <= WidestBand(blocks, depths, d)
    ensures exists e :: 0 <= e <= d && |Indices(depths, e)| == WidestBand(blocks, depths, d)
    decreases d
  {
    hide AtDepth, Indices;
    AtDepthCounts(blocks, depths, d);
    if d > 0 {
      WidestUpTo(blocks, depths, d - 1);
    }
  }

  lemma WidestIsWidest(blocks: seq<Block>, depths: seq<nat>)
    requires |blocks| == |depths|
    ensures IsWidest(depths, WidestBand(blocks, depths, MaxDepth(depths)))
  {
    WidestUpTo(blocks, depths, MaxDepth(depths));
    forall d: nat ensures |Indices(depths, d)| <= WidestBand(blocks, depths, MaxDepth(depths)) {
      if d > MaxDepth(depths) {
        assert Indices(depths, d) == {};
      }
    }
  }

  // ---- The columns of a band -------------------------------------------------------------

  /** Group `j` is in the column, above group `k`, and ends with its gap at that height. */
  ghost predicate FillsTo(placed: seq<Placed>, column: seq<nat>, j: nat, k: nat, c: nat, y: real)
    requires |placed| == |column| && k <= |placed|
  {
    j < k && column[j] == c && Bottom(placed[j]) + 92.0 == y
  }

  /** What is in column `c` before group `k` reaches down to its top, and below it if the column is to its left. */
  ghost predicate ReachesTop(placed: seq<Placed>, column: seq<nat>, k: nat, c: nat)
    requires |placed| == |column| && k < |placed|
  {
    exists j: nat, y: real :: FillsTo(placed, column, j, k, c, y)
                              && if c < column[k] then placed[k].position.y < y else placed[k].position.y <= y
  }

  /** It comes right below a group of its column, and every column reaches down to its top. */
  ghost predicate OnShortest(placed: seq<Placed>, column: seq<nat>, k: nat, active: nat)
    requires |placed| == |column| && k < |placed|
  {
    && (exists j: nat :: FillsTo(placed, column, j, k, column[k], placed[k].position.y))
    && forall c :: 0 <= c < active ==> ReachesTop(placed, column, k, c)
  }

  /**
   * Group `k` of a band stands centred in its column. The first groups start a column each, side by side at
   * the top of the band, and every other one continues the first of the shortest columns.
   */
  ghost predicate StandsAt(placed: seq<Placed>, column: seq<nat>, k: nat, active: nat, left: real, width: real, top: real)
    requires |placed| == |column| && k < |placed|
  {
    && column[k] < active
    && placed[k].position.x == left + column[k] as real * (width + 86.0) + (width - placed[k].block.width) / 2.0
    && if k < active then column[k] == k && placed[k].position.y == top else OnShortest(placed, column, k, active)
  }

  lemma {:induction false} UnfilledAreEmpty(b: Band, k: nat)
    requires BandFits(b) && k <= |b.blocks| && k <= b.columns
    ensures forall c :: k <= c < b.columns ==> Heights(b, k)[c] == 0.0
    ensures k < |b.blocks| && k < b.columns ==> ColumnOf(b, k) == k
    decreases k
  {
    if k > 0 {
      UnfilledAreEmpty(b, k - 1);
    }
  }

  /** The last group of a column that has one. */
  lemma {:induction false} LastInColumn(b: Band, k: nat, c: nat) returns (j: nat)
    requires BandFits(b) && c < b.columns && c < k <= |b.blocks|
    ensures j < k && ColumnOf(b, j) == c && Bottom(PlacedAt(b, j)) + 92.0 == b.y + Heights(b, k)[c]
    decreases k
  {
    UnfilledAreEmpty(b, c);
    j := k - 1;
    if ColumnOf(b, j) != c {
      j := LastInColumn(b, k - 1, c);
    }
  }

  /** Where a band puts a group, and that a later one comes where the band is filled least. */
  lemma PlaceOf(b: Band, k: nat)
    requires BandFits(b) && k < |b.blocks|
    ensures var p, c := PlacedAt(b, k), ColumnOf(b, k);
            && c < b.columns && p.block == b.blocks[k]
            && p.position.x == b.x + c as real * (b.columnWidth + 86.0) + (b.columnWidth - p.block.width) / 2.0
            && p.position.y == b.y + Heights(b, k)[c]
    ensures k >= b.columns ==> forall c :: 0 <= c < b.columns ==>
              if c < ColumnOf(b, k) then Heights(b, k)[ColumnOf(b, k)] < Heights(b, k)[c]
              else Heights(b, k)[ColumnOf(b, k)] <= Heights(b, k)[c]
  {
    hide Heights, BandFits;
  }

  lemma LaterGroupStands(b: Band, placed: seq<Placed>, column: seq<nat>, k: nat)
    requires PlacedBy(b, placed) && b.columns <= k < |placed|
    requires |column| == |placed| && forall j :: 0 <= j < |column| ==> column[j] == ColumnOf(b, j)
    ensures OnShortest(placed, column, k, b.columns)
  {
    PlaceOf(b, k);
    hide PlacedAt, ColumnOf, Heights, BandFits;
    var y := placed[k].position.y;
    var own := LastInColumn(b, k, column[k]);
    assert placed[own] == PlacedAt(b, own);
    assert FillsTo(placed, column, own, k, column[k], y);
    forall c: nat | c < b.columns ensures ReachesTop(placed, column, k, c) {
      var j := LastInColumn(b, k, c);
      assert placed[j] == PlacedAt(b, j);
      assert FillsTo(placed, column, j, k, c, b.y + Heights(b, k)[c]);
    }
  }

  lemma FirstGroupStands(b: Band, k: nat)
    requires BandFits(b) && k < |b.blocks| && k < b.columns
    ensures ColumnOf(b, k) == k && PlacedAt(b, k).position.y == b.y
  {
    UnfilledAreEmpty(b, k);
    PlaceOf(b, k);
    hide PlacedAt, ColumnOf, BandFits;
  }

  lemma GroupStands(b: Band, placed: seq<Placed>, column: seq<nat>, k: nat)
    requires PlacedBy(b, placed) && k < |placed|
    requires |column| == |placed| && forall j :: 0 <= j < |column| ==> column[j] == ColumnOf(b, j)
    ensures StandsAt(placed, column, k, b.columns, b.x, b.columnWidth, b.y)
  {
    hide PlacedAt, ColumnOf, Heights, BandFits, OnShortest;
    PlaceOf(b, k);
    if k < b.columns {
      FirstGroupStands(b, k);
    } else {
      LaterGroupStands(b, placed, column, k);
    }
  }

  // ---- The bands of a layout -------------------------------------------------------------

  function PlacedGroups(blocks: seq<Block>, positions: map<Id, Position>, order: seq<nat>): seq<Placed>
    requires forall k :: 0 <= k < |order| ==> order[k] < |blocks| && blocks[order[k]].groupId in positions
  {
    seq(|order|, k requires 0 <= k < |order| => At(positions, blocks[order[k]]))
  }

  /** So many columns as are asked for, but not more than the widest band fills and one at least; all as wide as the widest group. */
  ghost predicate IsFrame(f: Frame, orchestration: Option<Block>, blocks: seq<Block>, depths: seq<nat>, requestedColumns: int) {
    && (exists widest: nat :: IsWidest(depths, widest) && f.columns == AtLeast(1, AtMost(widest, requestedColumns)))
    && (forall i :: 0 <= i < |blocks| ==> blocks[i].width <= f.columnWidth)
    && (exists i :: 0 <= i < |blocks| && blocks[i].width == f.columnWidth)
    && var packs := f.columns as real * f.columnWidth + (f.columns - 1) as real * 86.0;
    && var own := if orchestration.Some? then orchestration.value.width else 0.0;
    && f.canvasWidth == if packs > own then packs else own
  }

  function AtLeast(a: int, b: int): int {
    if a >= b then a else b
  }

  function AtMost(a: int, b: int): int {
    if a <= b then a else b
  }

  /** Where so many columns begin that are centred on the canvas. */
  function LeftOf(f: Frame, active: int): real {
    (f.canvasWidth - (active as real * f.columnWidth + (active - 1) as real * 86.0)) / 2.0
  }

  /** The band of a depth: its groups in their order, in exactly so many columns, centred on the canvas. */
  ghost predicate BandStands(f: Frame, blocks: seq<Block>, depths: seq<nat>, positions: map<Id, Position>, d: nat,
                             order: seq<nat>, column: seq<nat>, top: real)
    requires |blocks| == |depths| && forall i :: 0 <= i < |blocks| ==> blocks[i].groupId in positions
  {
    && IsOrder(blocks, depths, d, order) && |column| == |order|
    && var active := AtMost(f.columns, |Indices(depths, d)|);
    && forall k :: 0 <= k < |order| ==>
                     StandsAt(PlacedGroups(blocks, positions, order), column, k, active, LeftOf(f, active), f.columnWidth, top)
  }

  /** A band begins where the layout does, or 144 below the lowest group of the depths before it. */
  ghost predicate BandBegins(blocks: seq<Block>, depths: seq<nat>, positions: map<Id, Position>, d: nat, start: real, top: real)
    requires |blocks| == |depths| && forall i :: 0 <= i < |blocks| ==> blocks[i].groupId in positions
  {
    && (forall i :: 0 <= i < |blocks| && depths[i] < d ==> Bottom(At(positions, blocks[i])) + 144.0 <= top)
    && if forall i :: 0 <= i < |depths| ==> depths[i] >= d then top == start
       else exists i :: 0 <= i < |blocks| && depths[i] < d && Bottom(At(positions, blocks[i])) + 144.0 == top
  }

  lemma {:induction false} WidestGroup(blocks: seq<Block>)
    requires Sized(blocks) && blocks != []
    ensures exists i :: 0 <= i < |blocks| && blocks[i].width == MaxWidth(blocks)
    decreases |blocks|
  {
    if |blocks| == 1 {
      assert MaxWidth(blocks[..0]) == 0.0;
      assert blocks[0].width == MaxWidth(blocks);
    } else {
      var n := |blocks| - 1;
      WidestGroup(blocks[..n]);
      var i :| 0 <= i < n && blocks[..n][i].width == MaxWidth(blocks[..n]);
      assert blocks[i].width == MaxWidth(blocks[..n]);
    }
  }

  lemma FrameForIsFrame(orchestration: Option<Block>, blocks: seq<Block>, depths: seq<nat>, requestedColumns: int)
    requires |blocks| == |depths| && Sized(blocks) && blocks != []
    ensures IsFrame(FrameFor(orchestration, blocks, depths, requestedColumns), orchestration, blocks, depths, requestedColumns)
  {
    hide IsWidest, WidestBand, MaxDepth, MaxWidth;
    WidestIsWidest(blocks, depths);
    WidestGroup(blocks);
  }

  lemma GroupsAreDistinct(blocks: seq<Block>, order: seq<nat>, depths: seq<nat>, d: nat)
    requires |blocks| == |depths| && IsOrder(blocks, depths, d, order)
    ensures |order| == |Indices(depths, d)|
  {
    forall j, k | 0 <= j < k < |order| ensures order[j] != order[k] {
      assert Earlier(blocks, order[j], order[k]);
    }
    assert Indices(depths, d) == set k | 0 <= k < |order| :: order[k];
    DistinctCount(order);
  }

  lemma {:induction false} DistinctCount(s: seq<nat>)
    requires forall j, k :: 0 <= j < k < |s| ==> s[j] != s[k]
    ensures |set k | 0 <= k < |s| :: s[k]| == |s|
    decreases |s|
  {
    if s != [] {
      var n := |s| - 1;
      DistinctCount(s[..n]);
      assert (set k | 0 <= k < |s| :: s[k]) == (set k | 0 <= k < n :: s[..n][k]) + {s[n]};
    }
  }

  lemma OrderIsDistinct(blocks: seq<Block>, order: seq<nat>, j: nat, k: nat)
    requires (forall m :: 0 <= m < |order| ==> order[m] < |blocks|) && Ascending(blocks, order) && j < k < |order|
    ensures order[j] != order[k]
  {
    assert Earlier(blocks, order[j], order[k]);
  }

  lemma OrderIsOne(blocks: seq<Block>, depths: seq<nat>, d: nat, order: seq<nat>, j: nat, k: nat)
    requires |blocks| == |depths| && IsOrder(blocks, depths, d, order) && j < |order| && k < |order|
    requires blocks[order[j]].groupId == blocks[order[k]].groupId && DistinctGroups(None, blocks)
    ensures j == k
  {
    hide Ascending;
    if j < k { OrderIsDistinct(blocks, order, j, k); }
    if k < j { OrderIsDistinct(blocks, order, k, j); }
  }

  lemma PlacedBlock(b: Band, k: nat)
    requires BandFits(b) && k < |b.blocks|
    ensures PlacedAt(b, k).block == b.blocks[k]
  {
  }

  /** A group of a band is placed where the band puts the block of its place in the order. */
  lemma PlacedInOrder(blocks: seq<Block>, depths: seq<nat>, f: Frame, start: real, d: nat, last: nat, positions: map<Id, Position>,
                      order: seq<nat>, k: nat)
    requires |blocks| == |depths| && FrameFits(blocks, f) && DistinctGroups(None, blocks) && d < last
    requires PlacedUpTo(blocks, depths, f, start, last, positions)
    requires IsOrder(blocks, depths, d, order) && k < |order|
    requires Picked(blocks, order) == LaidOut(blocks, depths, f, start, d).blocks
    ensures BandFits(LaidOut(blocks, depths, f, start, d)) && blocks[order[k]].groupId in positions
    ensures At(positions, blocks[order[k]]) == PlacedAt(LaidOut(blocks, depths, f, start, d), k)
  {
    hide LaidOut, FrameFits, BandFits, PlacedAt;
    var b := LaidOut(blocks, depths, f, start, d);
    assert InBand(blocks, depths, f, start, d, At(positions, blocks[order[k]]));
    var m :| 0 <= m < |b.blocks| && At(positions, blocks[order[k]]) == PlacedAt(b, m);
    PlacedBlock(b, m);
    assert Picked(blocks, order)[m] == blocks[order[m]];
    OrderIsOne(blocks, depths, d, order, m, k);
  }

  lemma BandAtShape(blocks: seq<Block>, depths: seq<nat>, f: Frame, d: nat, y: real)
    requires |blocks| == |depths|
    ensures var sorted := SortBlocks(AtDepth(blocks, depths, d));
            var active := AtMost(f.columns, |sorted|);
            BandAt(blocks, depths, f, d, y) == Band(sorted, active, f.columnWidth, LeftOf(f, active), y)
  {
    hide SortBlocks, AtDepth;
  }

  /** The groups of a depth stand in their columns. */
  lemma GroupsStand(blocks: seq<Block>, depths: seq<nat>, f: Frame, start: real, d: nat, last: nat, positions: map<Id, Position>)
    returns (order: seq<nat>, column: seq<nat>)
    requires |blocks| == |depths| && FrameFits(blocks, f) && DistinctGroups(None, blocks) && d < last
    requires PlacedUpTo(blocks, depths, f, start, last, positions)
    requires forall i :: 0 <= i < |blocks| ==> blocks[i].groupId in positions
    ensures BandStands(f, blocks, depths, positions, d, order, column, Top(blocks, depths, f, start, d))
  {
    hide FrameFits, BandFits, PlacedUpTo, PlacedAt, StandsAt, SortBlocks, AtDepth, Top, Ascending, Indices, DistinctGroups;
    order := BandOrder(blocks, depths, d);
    GroupsAreDistinct(blocks, order, depths, d);
    BandAtShape(blocks, depths, f, d, Top(blocks, depths, f, start, d));
    var b := LaidOut(blocks, depths, f, start, d);
    var active := AtMost(f.columns, |Indices(depths, d)|);
    assert b.blocks == Picked(blocks, order) && |b.blocks| == |order|;
    assert b == Band(b.blocks, active, f.columnWidth, LeftOf(f, active), Top(blocks, depths, f, start, d));
    hide BandAt, LaidOut, LeftOf;
    column := [];
    if order != [] {
      PlacedInOrder(blocks, depths, f, start, d, last, positions, order, 0);
      forall k | 0 <= k < |order| ensures At(positions, blocks[order[k]]) == PlacedAt(b, k) {
        PlacedInOrder(blocks, depths, f, start, d, last, positions, order, k);
      }
      column := ColumnsStand(b, blocks, positions, order);
    }
  }

  lemma ColumnsStand(b: Band, blocks: seq<Block>, positions: map<Id, Position>, order: seq<nat>) returns (column: seq<nat>)
    requires BandFits(b) && |b.blocks| == |order|
    requires forall k :: 0 <= k < |order| ==> order[k] < |blocks| && blocks[order[k]].groupId in positions
    requires forall k :: 0 <= k < |order| ==> At(positions, blocks[order[k]]) == PlacedAt(b, k)
    ensures |column| == |order|
    ensures forall k :: 0 <= k < |order| ==>
                          StandsAt(PlacedGroups(blocks, positions, order), column, k, b.columns, b.x, b.columnWidth, b.y)
  {
    column := seq(|order|, k requires 0 <= k < |order| => ColumnOf(b, k));
    var placed := PlacedGroups(blocks, positions, order);
    hide BandFits, StandsAt, PlacedAt, ColumnOf;
    assert forall k :: 0 <= k < |order| ==> placed[k] == PlacedAt(b, k);
    forall k | 0 <= k < |order| ensures StandsAt(placed, column, k, b.columns, b.x, b.columnWidth, b.y) {
      GroupStands(b, placed, column, k);
    }
  }

  /** The lowest group of a band decides where the next begins. */
  lemma LowestGroup(b: Band) returns (k: nat)
    requires BandFits(b) && 1 <= b.columns <= |b.blocks|
    ensures k < |b.blocks| && Bottom(PlacedAt(b, k)) + 144.0 == BandEnd(b)
  {
    hide PlacedAt, ColumnOf, Heights, BandFits, Tallest;
    var n := |b.blocks|;
    var c :| 0 <= c < b.columns && Heights(b, n)[c] == Tallest(Heights(b, n));
    k := LastInColumn(b, n, c);
  }

  lemma NextTop(blocks: seq<Block>, depths: seq<nat>, f: Frame, start: real, d: nat)
    requires |blocks| == |depths| && FrameFits(blocks, f)
    ensures var b, y := LaidOut(blocks, depths, f, start, d), Top(blocks, depths, f, start, d);
            if b.blocks == [] then Top(blocks, depths, f, start, d + 1) == y
            else BandFits(b) && b.y == y <= Top(blocks, depths, f, start, d + 1) == BandEnd(b) && 1 <= b.columns <= |b.blocks|
  {
    var b, y := LaidOut(blocks, depths, f, start, d), Top(blocks, depths, f, start, d);
    BandAtFits(blocks, depths, f, d, y);
    BandAtShape(blocks, depths, f, d, y);
    hide BandAt, BandEnd, FrameFits, SortBlocks, AtDepth;
    if b.blocks != [] {
      BandEndGrows(b);
    }
  }

  /** The groups of a depth end above the next band, and the lowest right above it. */
  lemma EndOfBand(blocks: seq<Block>, depths: seq<nat>, f: Frame, start: real, d: nat, last: nat, positions: map<Id, Position>)
    returns (order: seq<nat>, k: nat)
    requires |blocks| == |depths| && FrameFits(blocks, f) && DistinctGroups(None, blocks) && d < last
    requires PlacedUpTo(blocks, depths, f, start, last, positions)
    requires forall i :: 0 <= i < |blocks| ==> blocks[i].groupId in positions
    requires LaidOut(blocks, depths, f, start, d).blocks != []
    ensures IsOrder(blocks, depths, d, order) && k < |order|
    ensures Bottom(At(positions, blocks[order[k]])) + 144.0 == Top(blocks, depths, f, start, d + 1)
    ensures forall m :: 0 <= m < |order| ==> Bottom(At(positions, blocks[order[m]])) + 144.0 <= Top(blocks, depths, f, start, d + 1)
  {
    var b := LaidOut(blocks, depths, f, start, d);
    NextTop(blocks, depths, f, start, d);
    order := BandOrder(blocks, depths, d);
    assert b.blocks == Picked(blocks, order) by {
      BandAtShape(blocks, depths, f, d, Top(blocks, depths, f, start, d));
    }
    hide BandAt, LaidOut, Top, PlacedAt, BandEnd, BandFits, FrameFits, PlacedUpTo, SortBlocks, AtDepth, DistinctGroups, IsOrder;
    k := LowestGroup(b);
    PlacedInOrder(blocks, depths, f, start, d, last, positions, order, k);
    forall m | 0 <= m < |order| ensures Bottom(At(positions, blocks[order[m]])) + 144.0 <= Top(blocks, depths, f, start, d + 1) {
      PlacedInOrder(blocks, depths, f, start, d, last, positions, order, m);
      WithinBand(b, m);
    }
  }

  lemma {:induction false} TopBegins(blocks: seq<Block>, depths: seq<nat>, f: Frame, start: real, d: nat, last: nat,
                                     positions: map<Id, Position>)
    requires |blocks| == |depths| && FrameFits(blocks, f) && DistinctGroups(None, blocks) && d <= last
    requires PlacedUpTo(blocks, depths, f, start, last, positions)
    requires forall i :: 0 <= i < |blocks| ==> blocks[i].groupId in positions
    ensures BandBegins(blocks, depths, positions, d, start, Top(blocks, depths, f, start, d))
    decreases d
  {
    hide FrameFits, PlacedUpTo, DistinctGroups, BandAt, LaidOut, BandEnd, BandFits, BandBegins;
    if d == 0 {
      FirstBegins(blocks, depths, positions, start);
    } else {
      TopBegins(blocks, depths, f, start, d - 1, last, positions);
      NextTop(blocks, depths, f, start, d - 1);
      hide Top;
      var y, top := Top(blocks, depths, f, start, d - 1), Top(blocks, depths, f, start, d);
      if LaidOut(blocks, depths, f, start, d - 1).blocks == [] {
        forall i | 0 <= i < |blocks| ensures depths[i] != d - 1 {
          LaidOutBlocks(blocks, depths, f, start, d - 1, blocks[i]);
        }
        SameBegins(blocks, depths, positions, d - 1, start, y);
      } else {
        var order, k := EndOfBand(blocks, depths, f, start, d - 1, last, positions);
        NextBegins(blocks, depths, positions, d - 1, start, y, top, order, k);
      }
    }
  }

  lemma FirstBegins(blocks: seq<Block>, depths: seq<nat>, positions: map<Id, Position>, start: real)
    requires |blocks| == |depths| && forall i :: 0 <= i < |blocks| ==> blocks[i].groupId in positions
    ensures BandBegins(blocks, depths, positions, 0, start, start)
  {
  }

  lemma SameBegins(blocks: seq<Block>, depths: seq<nat>, positions: map<Id, Position>, d: nat, start: real, y: real)
    requires |blocks| == |depths| && forall i :: 0 <= i < |blocks| ==> blocks[i].groupId in positions
    requires BandBegins(blocks, depths, positions, d, start, y) && forall i :: 0 <= i < |blocks| ==> depths[i] != d
    ensures BandBegins(blocks, depths, positions, d + 1, start, y)
  {
    hide Bottom, At;
  }

  lemma NextBegins(blocks: seq<Block>, depths: seq<nat>, positions: map<Id, Position>, d: nat, start: real, y: real, top: real,
                   order: seq<nat>, k: nat)
    requires |blocks| == |depths| && forall i :: 0 <= i < |blocks| ==> blocks[i].groupId in positions
    requires BandBegins(blocks, depths, positions, d, start, y) && y <= top
    requires IsOrder(blocks, depths, d, order) && k < |order| && Bottom(At(positions, blocks[order[k]])) + 144.0 == top
    requires forall m :: 0 <= m < |order| ==> Bottom(At(positions, blocks[order[m]])) + 144.0 <= top
    ensures BandBegins(blocks, depths, positions, d + 1, start, top)
  {
    hide Bottom, At, Ascending;
    forall i | 0 <= i < |blocks| && depths[i] < d + 1 ensures Bottom(At(positions, blocks[i])) + 144.0 <= top {
      if depths[i] == d {
        assert i in order;
        var m :| 0 <= m < |order| && order[m] == i;
      }
    }
    assert depths[order[k]] < d + 1;
  }

  // ---- The layout ------------------------------------------------------------------------

  /** The groups of a depth form a band below those of smaller depths; no groups form any. */
  ghost predicate BandIsLaidOut(f: Frame, orchestration: Option<Block>, blocks: seq<Block>, depths: seq<nat>,
                                positions: map<Id, Position>, d: nat)
    requires |blocks| == |depths| && forall i :: 0 <= i < |blocks| ==> blocks[i].groupId in positions
  {
    exists order: seq<nat>, column: seq<nat>, top: real ::
      && BandStands(f, blocks, depths, positions, d, order, column, top)
      && BandBegins(blocks, depths, positions, d, if orchestration.Some? then 24.0 + orchestration.value.height + 144.0 else 24.0, top)
  }

  lemma BandsAreLaidOut(orchestration: Option<Block>, blocks: seq<Block>, depths: seq<nat>, f: Frame, positions: map<Id, Position>)
    requires |blocks| == |depths| && FrameFits(blocks, f) && DistinctGroups(None, blocks)
    requires PlacedUpTo(blocks, depths, f, StartY(orchestration), MaxDepth(depths) + 1, positions)
    requires forall i :: 0 <= i < |blocks| ==> blocks[i].groupId in positions
    ensures forall d: nat :: BandIsLaidOut(f, orchestration, blocks, depths, positions, d)
  {
    hide FrameFits, PlacedUpTo, DistinctGroups, Top, BandStands, BandBegins, MaxDepth;
    forall d: nat ensures BandIsLaidOut(f, orchestration, blocks, depths, positions, d) {
      var last := if d < MaxDepth(depths) + 1 then MaxDepth(depths) + 1 else d + 1;
      PlacedFurther(blocks, depths, f, StartY(orchestration), last, positions);
      var order, column := GroupsStand(blocks, depths, f, StartY(orchestration), d, last, positions);
      TopBegins(blocks, depths, f, StartY(orchestration), d, last, positions);
    }
  }

  lemma PlacedFurther(blocks: seq<Block>, depths: seq<nat>, f: Frame, start: real, last: nat, positions: map<Id, Position>)
    requires |blocks| == |depths| && FrameFits(blocks, f)
    requires PlacedUpTo(blocks, depths, f, start, MaxDepth(depths) + 1, positions)
    ensures PlacedUpTo(blocks, depths, f, start, last, positions)
  {
    hide InBand, FrameFits;
    assert forall i :: 0 <= i < |depths| ==> depths[i] <= MaxDepth(depths);
  }

  /**
   * Lays the groups out. For any blocks, steps and number of columns no two groups overlap, every group
   * lies strictly below its predecessors exactly if no pack is its own proper ancestor, and the groups of
   * each depth stand in a band of their own, in order and in exactly as many columns as there is use for.
   */
  method LayoutTraceGroupBlocks(orchestration: Option<Block>, blocks: seq<Block>, steps: seq<Step>, requestedColumns: int)
    returns (positions: map<Id, Position>, depths: seq<nat>, ghost f: Frame)
    requires Sized(blocks) && DistinctGroups(orchestration, blocks)
    ensures |depths| == |blocks| && DepthsRight(Predecessors(steps, steps, Contexts(blocks)), blocks, depths)
    ensures f == FrameFor(orchestration, blocks, depths, requestedColumns)
    ensures PlacedUpTo(blocks, depths, f, StartY(orchestration), MaxDepth(depths) + 1, positions)
    ensures blocks != [] ==> IsFrame(f, orchestration, blocks, depths, requestedColumns)
    ensures forall i :: 0 <= i < |blocks| ==> blocks[i].groupId in positions
    ensures forall d: nat :: BandIsLaidOut(f, orchestration, blocks, depths, positions, d)
    ensures NoOverlap(blocks, positions)
    ensures orchestration.Some? ==> orchestration.value.groupId in positions
    ensures orchestration.Some? && blocks != [] ==>
              positions[orchestration.value.groupId] == Position((f.canvasWidth - orchestration.value.width) / 2.0, 24.0)
    ensures blocks == [] ==> positions == if orchestration.Some? then map[orchestration.value.groupId := Position(24.0, 24.0)] else map[]
    ensures orchestration.Some? ==> forall i :: 0 <= i < |blocks| ==> Apart(At(positions, orchestration.value), At(positions, blocks[i]))
    ensures var preds := Predecessors(steps, steps, Contexts(blocks));
            BelowPredecessors(preds, blocks, positions) <==> Acyclic(preds)
  {
    hide FrameFor, MaxDepth, Apart, Acyclic, IsDepth, Predecessors, InBand, FrameFits, IsFrame, BandIsLaidOut;
    positions := map[];
    var preds := Predecessors(steps, steps, Contexts(blocks));
    depths := FindDepths(blocks, preds);
    var frame := FrameFor(orchestration, blocks, depths, requestedColumns);
    f := frame;
    if blocks == [] {
      if orchestration.Some? {
        positions := positions[orchestration.value.groupId := Position(MARGIN, MARGIN)];
      }
      DepthsDecideWhatIsBelow(preds, blocks, depths, positions);
      BandsAreLaidOut(orchestration, blocks, depths, f, positions);
      return;
    }
    if orchestration.Some? {
      positions := positions[orchestration.value.groupId := Position((frame.canvasWidth - orchestration.value.width) / 2.0, MARGIN)];
    }
    positions := PlaceBands(blocks, depths, frame, StartY(orchestration), positions);
    LayoutIsApart(blocks, depths, f, StartY(orchestration), MaxDepth(depths) + 1, positions);
    if orchestration.Some? {
      OrchestrationIsApart(orchestration.value, blocks, depths, f, MaxDepth(depths) + 1, positions);
    }
    DepthsDecideWhatIsBelow(preds, blocks, depths, positions);
    FrameForIsFrame(orchestration, blocks, depths, requestedColumns);
    BandsAreLaidOut(orchestration, blocks, depths, f, positions);
  }
}
