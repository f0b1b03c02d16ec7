/**
 * The windowing engine of the virtualized grid
 * (src/components/VirtualizedWidgetGrid/VirtualizedWidgetGrid.tsx):
 * column count, per-index layout, the visible index range, the render set
 * and the scrollable extent, plus the component's state as a class whose
 * methods are its effects.
 */
module VirtualizedWidgetGrid {
  import opened WidgetTypes
  import opened IntMath

  type Pos = x: nat | x > 0 witness 1

  /** The fixed cell geometry: WIDGET_WIDTH, WIDGET_HEIGHT and WIDGET_SPACING. */
  datatype Cell = Cell(width: Pos, height: Pos, spacing: Pos) {
    /** Horizontal distance between the left edges of neighbouring cells. */
    function ColumnPitch(): Pos { width + spacing }
    /** Vertical distance between the top edges of neighbouring rows. */
    function RowPitch(): Pos { height + spacing }
  }

  /** Where one widget index is drawn. */
  datatype Position = Position(left: nat, top: nat, rowIndex: nat, colIndex: nat)

  /** The three refs the layout effect overwrites: positions, widgets per row, total rows. */
  datatype LayoutCache = LayoutCache(positions: seq<Position>, widgetsPerRow: nat, totalRows: nat)

  /** The refs before any layout has been computed. */
  const InitialCache := LayoutCache([], 0, 0)

  /** A half-open interval `[start, end)` of widget indices. */
  datatype Range = Range(start: nat, end: nat)

  /** One render-set entry: the widget's fields plus `position: {left, top}`. */
  datatype Placed = Placed(widget: Widget, left: nat, top: nat)

  function Max(a: int, b: int): int { if a < b then b else a }
  function Min(a: int, b: int): int { if a < b then a else b }

  // ---------------------------------------------------------------- columns

  /**
   * `calculateWidgetsPerRow`: the number of whole cell pitches that fit in the
   * container, but never fewer than one.
   */
  function WidgetsPerRow(cell: Cell, containerWidth: nat): (r: nat)
    ensures r >= 1
    ensures r == 1 || r * cell.ColumnPitch() <= containerWidth
    ensures containerWidth < (r + 1) * cell.ColumnPitch()
  {
    var fit := containerWidth / cell.ColumnPitch();
    assert containerWidth < (fit + 1) * cell.ColumnPitch();
    MulMonotone(fit + 1, 2, cell.ColumnPitch());
    Max(1, fit)
  }

  /** A wider container never gets fewer columns. */
  lemma WidgetsPerRowMonotone(cell: Cell, w1: nat, w2: nat)
    requires w1 <= w2
    ensures WidgetsPerRow(cell, w1) <= WidgetsPerRow(cell, w2)
  {
    DivMonotone(w1, w2, cell.ColumnPitch());
  }

  // ----------------------------------------------------------------- layout

  /** The position `precomputePositions` stores for index `i` with `perRow` columns. */
  function PositionAt(cell: Cell, perRow: nat, i: nat): (p: Position)
    requires perRow > 0
    ensures p.colIndex < perRow && p.rowIndex * perRow + p.colIndex == i
  {
    var row := i / perRow;
    var col := i % perRow;
    Position(col * cell.ColumnPitch(), row * cell.RowPitch(), row, col)
  }

  /**
   * A (row, column) pair with the column below `perRow` is the position of
   * exactly the index `row * perRow + col`: the layout is a bijection between
   * indices and grid cells.
   */
  lemma PositionAtInverse(cell: Cell, perRow: nat, row: nat, col: nat)
    requires perRow > 0 && col < perRow
    ensures PositionAt(cell, perRow, row * perRow + col).rowIndex == row
    ensures PositionAt(cell, perRow, row * perRow + col).colIndex == col
  {
    DivModUnique(row * perRow + col, perRow, row, col);
  }

  /** Multiplying by a positive pitch keeps distinct numbers distinct. */
  lemma PitchInjective(x: nat, y: nat, pitch: nat)
    requires pitch > 0 && x != y
    ensures x * pitch != y * pitch
  {
    MulMonotone(x + 1, y, pitch);
    MulMonotone(y + 1, x, pitch);
  }

  /** Distinct indices are placed in distinct grid cells, at distinct offsets. */
  lemma PositionsDistinct(cell: Cell, perRow: nat, i: nat, j: nat)
    requires perRow > 0 && i != j
    ensures PositionAt(cell, perRow, i).rowIndex != PositionAt(cell, perRow, j).rowIndex
         || PositionAt(cell, perRow, i).colIndex != PositionAt(cell, perRow, j).colIndex
    ensures PositionAt(cell, perRow, i).left != PositionAt(cell, perRow, j).left
         || PositionAt(cell, perRow, i).top != PositionAt(cell, perRow, j).top
  {
    var ri, ci, rj, cj := i / perRow, i % perRow, j / perRow, j % perRow;
    assert i == ri * perRow + ci;
    assert j == rj * perRow + cj;
    if ci != cj {
      PitchInjective(ci, cj, cell.ColumnPitch());
    } else {
      assert ri != rj;
      PitchInjective(ri, rj, cell.RowPitch());
    }
  }

  /**
   * `precomputePositions`: fills an array of `widgetsCount` slots, slot `i`
   * holding the position of index `i`, and reports the column count used.
   */
  method PrecomputePositions(cell: Cell, widgetsCount: nat, containerWidth: nat)
    returns (positions: seq<Position>, widgetsPerRow: nat)
    ensures widgetsPerRow == WidgetsPerRow(cell, containerWidth)
    ensures |positions| == widgetsCount
    ensures forall i :: 0 <= i < widgetsCount ==> positions[i] == PositionAt(cell, widgetsPerRow, i)
  {
    widgetsPerRow := WidgetsPerRow(cell, containerWidth);
    var slots := new Position[widgetsCount];
    for i := 0 to widgetsCount
      invariant forall k :: 0 <= k < i ==> slots[k] == PositionAt(cell, widgetsPerRow, k)
    {
      var row := i / widgetsPerRow;
      var col := i % widgetsPerRow;
      slots[i] := Position(col * cell.ColumnPitch(), row * cell.RowPitch(), row, col);
    }
    positions := slots[..];
  }

  /** The cache contents the layout effect stores for a non-empty list and a measured container. */
  function Layout(cell: Cell, widgetsCount: nat, containerWidth: nat): (l: LayoutCache)
    ensures |l.positions| == widgetsCount && l.widgetsPerRow >= 1
  {
    var perRow := WidgetsPerRow(cell, containerWidth);
    LayoutCache(seq(widgetsCount, i requires 0 <= i < widgetsCount => PositionAt(cell, perRow, i)),
                perRow, CeilDiv(widgetsCount, perRow))
  }

  /**
   * The layout covers every index exactly once: one position per index, each
   * in a column below the column count and a row below the row count, the
   * index recoverable as `row * perRow + col`; and `totalRows` counts only
   * occupied rows (the last row holds at least one widget).
   */
  lemma {:induction false} LayoutCoversAll(cell: Cell, widgetsCount: nat, containerWidth: nat)
    ensures var l := Layout(cell, widgetsCount, containerWidth);
      && |l.positions| == widgetsCount
      && l.widgetsPerRow >= 1
      && (forall i :: 0 <= i < widgetsCount ==>
            && l.positions[i].colIndex < l.widgetsPerRow
            && l.positions[i].rowIndex < l.totalRows
            && l.positions[i].rowIndex * l.widgetsPerRow + l.positions[i].colIndex == i
            && l.positions[i].left == l.positions[i].colIndex * cell.ColumnPitch()
            && l.positions[i].top == l.positions[i].rowIndex * cell.RowPitch())
      && (l.totalRows == 0 <==> widgetsCount == 0)
      && (l.totalRows > 0 ==> (l.totalRows - 1) * l.widgetsPerRow < widgetsCount)
  {
    var l := Layout(cell, widgetsCount, containerWidth);
    var p := l.widgetsPerRow;
    forall i | 0 <= i < widgetsCount
      ensures l.positions[i].rowIndex < l.totalRows
    {
      var row := i / p;
      assert row * p <= i;
      MulMonotone(l.totalRows, row, p);
    }
  }

  /** The effect at lines 50-60: skipped for an empty list or an unmeasured container. */
  function NextLayout(cell: Cell, cache: LayoutCache, widgetsCount: nat, containerWidth: nat): (l: LayoutCache)
    ensures widgetsCount == 0 || containerWidth == 0 ==> l == cache
    ensures widgetsCount > 0 && containerWidth > 0 ==>
      |l.positions| == widgetsCount && l.widgetsPerRow == WidgetsPerRow(cell, containerWidth)
  {
    if widgetsCount == 0 || containerWidth == 0 then cache
    else Layout(cell, widgetsCount, containerWidth)
  }

  // ----------------------------------------------------------------- extent

  /** `totalHeight`: the height of the scrollable content. */
  function TotalHeight(cell: Cell, widgetsCount: nat, containerWidth: nat): (h: nat)
    ensures h == 0 <==> widgetsCount == 0 || containerWidth == 0
  {
    if widgetsCount == 0 || containerWidth == 0 then 0
    else
      var widgetsPerRow := WidgetsPerRow(cell, containerWidth);
      var rows := CeilDiv(widgetsCount, widgetsPerRow);
      rows * cell.RowPitch()
  }

  /** The row of an index below the count is below the row count. */
  lemma RowBelowRowCount(i: nat, perRow: nat, widgetsCount: nat)
    requires perRow > 0 && i < widgetsCount
    ensures i / perRow < CeilDiv(widgetsCount, perRow)
  {
    assert i / perRow * perRow <= i;
    MulMonotone(CeilDiv(widgetsCount, perRow), i / perRow, perRow);
  }

  /** The last index sits in the last row. */
  lemma LastIndexInLastRow(widgetsCount: nat, perRow: nat)
    requires perRow > 0 && widgetsCount > 0
    ensures (widgetsCount - 1) / perRow + 1 == CeilDiv(widgetsCount, perRow)
  {
    var last := widgetsCount - 1;
    var rows := CeilDiv(widgetsCount, perRow);
    RowBelowRowCount(last, perRow, widgetsCount);
    assert last < (last / perRow + 1) * perRow;
    MulMonotone(last / perRow + 1, rows - 1, perRow);
  }

  /** The cell of index `i` ends no lower than the last of the row count's rows. */
  lemma CellInsideRows(i: nat, perRow: nat, widgetsCount: nat, rowPitch: nat)
    requires perRow > 0 && i < widgetsCount
    ensures i / perRow * rowPitch + rowPitch <= CeilDiv(widgetsCount, perRow) * rowPitch
  {
    RowBelowRowCount(i, perRow, widgetsCount);
    MulMonotone(i / perRow + 1, CeilDiv(widgetsCount, perRow), rowPitch);
  }

  /** The cell of the last index ends exactly at the bottom of the last row. */
  lemma LastCellAtBottom(widgetsCount: nat, perRow: nat, rowPitch: nat)
    requires perRow > 0 && widgetsCount > 0
    ensures (widgetsCount - 1) / perRow * rowPitch + rowPitch == CeilDiv(widgetsCount, perRow) * rowPitch
  {
    LastIndexInLastRow(widgetsCount, perRow);
  }

  /**
   * The extent is the cached row count times the row pitch, every cell of the
   * layout lies inside it, and the last row reaches its bottom; it is zero
   * exactly when there are no widgets or no width.
   */
  lemma {:induction false} TotalHeightFitsLayout(cell: Cell, widgetsCount: nat, containerWidth: nat)
    ensures var h := TotalHeight(cell, widgetsCount, containerWidth);
      var l := Layout(cell, widgetsCount, containerWidth);
      && (h == 0 <==> widgetsCount == 0 || containerWidth == 0)
      && (containerWidth > 0 ==> h == l.totalRows * cell.RowPitch())
      && (containerWidth > 0 ==> forall i :: 0 <= i < widgetsCount ==>
            l.positions[i].top + cell.RowPitch() <= h)
      && (containerWidth > 0 && widgetsCount > 0 ==>
            l.positions[widgetsCount - 1].top + cell.RowPitch() == h)
  {
    var l := Layout(cell, widgetsCount, containerWidth);
    var p, rp := l.widgetsPerRow, cell.RowPitch();
    if widgetsCount > 0 && containerWidth > 0 {
      forall i | 0 <= i < widgetsCount
        ensures l.positions[i].top + rp <= l.totalRows * rp
      {
        CellInsideRows(i, p, widgetsCount, rp);
      }
      LastCellAtBottom(widgetsCount, p, rp);
    }
  }

  // ---------------------------------------------------------- visible range

  /**
   * The range arithmetic of `updateVisibleRange` (lines 72-81): one row of
   * lookbehind, and two rows beyond those the viewport height spans.
   */
  function RangeFor(cell: Cell, widgetsPerRow: nat, totalRows: nat, widgetsCount: nat,
                    scrollTop: nat, containerHeight: nat): (r: Range)
    ensures r.end <= widgetsCount
    ensures scrollTop == 0 ==> r.start == 0
  {
    var startRow: nat := Max(0, scrollTop / cell.RowPitch() - 1);
    var visibleRows := CeilDiv(containerHeight, cell.RowPitch()) + 2;
    var endRow: nat := Min(totalRows, startRow + visibleRows);
    Range(Max(0, startRow * widgetsPerRow), Min(widgetsCount, endRow * widgetsPerRow))
  }

  /**
   * `updateVisibleRange` as a whole: the early returns at lines 64 and 70
   * leave the previous range in place.
   */
  function UpdatedRange(cell: Cell, cache: LayoutCache, widgetsCount: nat, containerWidth: nat,
                        scrollTop: nat, containerHeight: nat, prev: Range): (r: Range)
    ensures widgetsCount == 0 || containerWidth == 0 || cache.widgetsPerRow == 0 ==> r == prev
    ensures widgetsCount > 0 && containerWidth > 0 && cache.widgetsPerRow > 0 ==>
      r.end <= widgetsCount && (scrollTop == 0 ==> r.start == 0)
  {
    if widgetsCount == 0 || containerWidth == 0 then prev
    else if cache.widgetsPerRow == 0 then prev
    else RangeFor(cell, cache.widgetsPerRow, cache.totalRows, widgetsCount, scrollTop, containerHeight)
  }

  /** A scroll offset inside `rows` rows starts the window no later than the last row. */
  lemma StartRowInside(scrollTop: nat, rowPitch: nat, rows: nat)
    requires rowPitch > 0 && rows > 0 && scrollTop <= rows * rowPitch
    ensures Max(0, scrollTop / rowPitch - 1) <= rows - 1
  {
    assert scrollTop / rowPitch * rowPitch <= scrollTop;
    MulMonotone(rows + 1, scrollTop / rowPitch, rowPitch);
  }

  /** The ordering argument on plain numbers: the start row is occupied and the end row is not before it. */
  lemma RangeOrderedForRows(cell: Cell, perRow: nat, widgetsCount: nat, scrollTop: nat, containerHeight: nat)
    requires perRow > 0
    requires scrollTop <= CeilDiv(widgetsCount, perRow) * cell.RowPitch()
    ensures var r := RangeFor(cell, perRow, CeilDiv(widgetsCount, perRow), widgetsCount, scrollTop, containerHeight);
      r.start <= r.end
  {
    var rows, rp := CeilDiv(widgetsCount, perRow), cell.RowPitch();
    var startRow: nat := Max(0, scrollTop / rp - 1);
    var endRow: nat := Min(rows, startRow + CeilDiv(containerHeight, rp) + 2);
    if widgetsCount > 0 {
      StartRowInside(scrollTop, rp, rows);
      MulMonotone(startRow, rows - 1, perRow);
      MulMonotone(startRow, endRow, perRow);
      assert startRow * perRow < widgetsCount;
      assert startRow * perRow <= endRow * perRow;
    } else {
      assert scrollTop == 0;
    }
  }

  /**
   * With a layout computed for the current count, a scroll offset inside the
   * content keeps the range ordered: `start <= end <= count`.
   */
  lemma RangeOrdered(cell: Cell, widgetsCount: nat, containerWidth: nat, scrollTop: nat, containerHeight: nat)
    requires scrollTop <= TotalHeight(cell, widgetsCount, containerWidth)
    ensures var l := Layout(cell, widgetsCount, containerWidth);
      var r := RangeFor(cell, l.widgetsPerRow, l.totalRows, widgetsCount, scrollTop, containerHeight);
      r.start <= r.end <= widgetsCount
  {
    var p := WidgetsPerRow(cell, containerWidth);
    assert scrollTop <= CeilDiv(widgetsCount, p) * cell.RowPitch();
    RangeOrderedForRows(cell, p, widgetsCount, scrollTop, containerHeight);
  }

  /**
   * Past the end of the content the range inverts: with 60 widgets in 4
   * columns of 100x80 cells spaced 10 apart and a 300-high viewport, a scroll
   * offset of 2000 gives `start` 84 and `end` 60.
   */
  lemma RangeInvertsPastContent()
    ensures var cell := Cell(100, 80, 10);
      var l := Layout(cell, 60, 450);
      && TotalHeight(cell, 60, 450) < 2000
      && RangeFor(cell, l.widgetsPerRow, l.totalRows, 60, 2000, 300) == Range(84, 60)
  {
    var cell := Cell(100, 80, 10);
    assert WidgetsPerRow(cell, 450) == 4;
    assert CeilDiv(60, 4) == 15;
    assert CeilDiv(300, 90) == 4;
  }

  /** A row whose cell reaches below the scroll offset is not above the start row. */
  lemma RowNotBeforeStart(scrollTop: nat, rowPitch: nat, row: nat)
    requires rowPitch > 0 && scrollTop < (row + 1) * rowPitch
    ensures Max(0, scrollTop / rowPitch - 1) <= row
  {
    assert scrollTop / rowPitch * rowPitch <= scrollTop;
    MulMonotone(row + 1, scrollTop / rowPitch, rowPitch);
  }

  /** A row that starts above the viewport's bottom edge is before the window's last row. */
  lemma RowBeforeEnd(scrollTop: nat, containerHeight: nat, rowPitch: nat, row: nat)
    requires rowPitch > 0 && row * rowPitch < scrollTop + containerHeight
    ensures row + 1 <= Max(0, scrollTop / rowPitch - 1) + CeilDiv(containerHeight, rowPitch) + 2
  {
    var q, c := scrollTop / rowPitch, CeilDiv(containerHeight, rowPitch);
    assert scrollTop < (q + 1) * rowPitch;
    assert row * rowPitch < (q + 1 + c) * rowPitch;
    MulMonotone(q + 1 + c, row, rowPitch);
  }

  /** The window starts at or before the row `i / perRow` when that row reaches below the scroll offset. */
  lemma WindowStartsBefore(cell: Cell, perRow: nat, widgetsCount: nat, scrollTop: nat, containerHeight: nat, i: nat)
    requires perRow > 0
    requires scrollTop < (i / perRow + 1) * cell.RowPitch()
    ensures RangeFor(cell, perRow, CeilDiv(widgetsCount, perRow), widgetsCount, scrollTop, containerHeight).start <= i
  {
    var rp := cell.RowPitch();
    var row := i / perRow;
    var startRow: nat := Max(0, scrollTop / rp - 1);
    RowNotBeforeStart(scrollTop, rp, row);
    MulMonotone(startRow, row, perRow);
    assert row * perRow <= i;
  }

  /** The window ends after index `i` when its row starts above the viewport's bottom edge. */
  lemma WindowEndsAfter(cell: Cell, perRow: nat, widgetsCount: nat, scrollTop: nat, containerHeight: nat, i: nat)
    requires perRow > 0 && i < widgetsCount
    requires i / perRow * cell.RowPitch() < scrollTop + containerHeight
    ensures i < RangeFor(cell, perRow, CeilDiv(widgetsCount, perRow), widgetsCount, scrollTop, containerHeight).end
  {
    var rows, rp := CeilDiv(widgetsCount, perRow), cell.RowPitch();
    var row := i / perRow;
    var startRow: nat := Max(0, scrollTop / rp - 1);
    var endRow: nat := Min(rows, startRow + CeilDiv(containerHeight, rp) + 2);
    RowBeforeEnd(scrollTop, containerHeight, rp, row);
    RowBelowRowCount(i, perRow, widgetsCount);
    assert row + 1 <= endRow;
    MulMonotone(row + 1, endRow, perRow);
    assert i < (row + 1) * perRow;
  }

  /**
   * The window is correct: with a layout for the current count, every widget
   * whose cell overlaps the viewport `[scrollTop, scrollTop + containerHeight)`
   * lies in `[start, end)`.
   */
  lemma RangeCoversViewport(cell: Cell, widgetsCount: nat, containerWidth: nat,
                            scrollTop: nat, containerHeight: nat, i: nat)
    requires i < widgetsCount
    requires var pos := Layout(cell, widgetsCount, containerWidth).positions[i];
      pos.top < scrollTop + containerHeight && scrollTop < pos.top + cell.height
    ensures var l := Layout(cell, widgetsCount, containerWidth);
      var r := RangeFor(cell, l.widgetsPerRow, l.totalRows, widgetsCount, scrollTop, containerHeight);
      r.start <= i < r.end
  {
    var p := WidgetsPerRow(cell, containerWidth);
    var top := Layout(cell, widgetsCount, containerWidth).positions[i].top;
    assert top == i / p * cell.RowPitch();
    assert top + cell.height < (i / p + 1) * cell.RowPitch();
    WindowStartsBefore(cell, p, widgetsCount, scrollTop, containerHeight, i);
    WindowEndsAfter(cell, p, widgetsCount, scrollTop, containerHeight, i);
  }

  /** A worked example: at the top, 60 widgets in 4 columns show indices 0..23. */
  lemma RangeAtTopExample()
    ensures var cell := Cell(100, 80, 10);
      var l := Layout(cell, 60, 450);
      && l.widgetsPerRow == 4 && l.totalRows == 15
      && RangeFor(cell, l.widgetsPerRow, l.totalRows, 60, 0, 300) == Range(0, 24)
  {
    var cell := Cell(100, 80, 10);
    assert WidgetsPerRow(cell, 450) == 4;
    assert CeilDiv(60, 4) == 15;
    assert CeilDiv(300, 90) == 4;
  }

  /** A worked example: scrolled to 450, the same grid shows indices 16..39. */
  lemma RangeScrolledExample()
    ensures var cell := Cell(100, 80, 10);
      var l := Layout(cell, 60, 450);
      RangeFor(cell, l.widgetsPerRow, l.totalRows, 60, 450, 300) == Range(16, 40)
  {
    var cell := Cell(100, 80, 10);
    assert WidgetsPerRow(cell, 450) == 4;
    assert CeilDiv(60, 4) == 15;
    assert CeilDiv(300, 90) == 4;
  }

  // ------------------------------------------------------------- render set

  /** The last index, exclusive, that the builder can pair: both a widget and a position exist below it. */
  function Reach(end: nat, widgets: seq<Widget>, positions: seq<Position>): nat
  {
    Min(end, Min(|widgets|, |positions|))
  }

  /**
   * What the builder loop of lines 127-143 has pushed once it has looked at
   * the indices `[start, end)`: those indices, in order, for which both a
   * widget and a position exist. Since both lists are prefixes of the index
   * space, that is the contiguous run `[start, Reach)`.
   */
  function RenderedBetween(start: nat, end: nat, widgets: seq<Widget>, positions: seq<Position>): (r: seq<Placed>)
    decreases end
    ensures |r| == Max(0, Reach(end, widgets, positions) - start)
    ensures forall k :: 0 <= k < |r| ==>
      && start + k < end && start + k < |widgets| && start + k < |positions|
      && r[k] == Placed(widgets[start + k], positions[start + k].left, positions[start + k].top)
  {
    if end <= start then []
    else
      var i := end - 1;
      RenderedBetween(start, i, widgets, positions)
        + (if i < |widgets| && i < |positions|
           then [Placed(widgets[i], positions[i].left, positions[i].top)]
           else [])
  }

  /** The builder loop: walks the range and pushes each index that has both a widget and a position. */
  method BuildRenderSet(range: Range, widgets: seq<Widget>, positions: seq<Position>)
    returns (widgetsToRender: seq<Placed>)
    ensures widgetsToRender == RenderedBetween(range.start, range.end, widgets, positions)
  {
    widgetsToRender := [];
    var i := range.start;
    while i < range.end
      invariant range.start <= i
      invariant i == range.start || i <= range.end
      invariant widgetsToRender == RenderedBetween(range.start, i, widgets, positions)
    {
      if i < |widgets| && i < |positions| {
        var widget := widgets[i];
        var position := positions[i];
        widgetsToRender := widgetsToRender + [Placed(widget, position.left, position.top)];
      }
      i := i + 1;
    }
  }

  /** The effect at lines 124-146: an empty range leaves the previous render set in place. */
  function NextRenderSet(prev: seq<Placed>, range: Range, widgets: seq<Widget>, positions: seq<Position>): (r: seq<Placed>)
    ensures range.start == range.end ==> r == prev
    ensures range.start < range.end ==> |r| <= range.end - range.start
    ensures range.start != range.end ==>
      && |r| == Max(0, Reach(range.end, widgets, positions) - range.start)
      && forall k :: 0 <= k < |r| ==>
        && range.start + k < range.end
        && r[k] == Placed(widgets[range.start + k], positions[range.start + k].left, positions[range.start + k].top)
  {
    if range.start == range.end then prev
    else RenderedBetween(range.start, range.end, widgets, positions)
  }

  /**
   * Update isolation: replacing the value of widget `j` changes, in the render
   * set, only the entry drawn for index `j`, and only its value.
   */
  lemma RenderSetValueIsolation(start: nat, end: nat, widgets: seq<Widget>, positions: seq<Position>,
                                j: nat, value: int)
    requires j < |widgets|
    ensures var before := RenderedBetween(start, end, widgets, positions);
      var after := RenderedBetween(start, end, widgets[j := widgets[j].(value := value)], positions);
      && |after| == |before|
      && forall k :: 0 <= k < |before| ==>
           && after[k].left == before[k].left && after[k].top == before[k].top
           && after[k].widget == if start + k == j then before[k].widget.(value := value) else before[k].widget
  {
  }

  // ------------------------------------------------------------ component

  /**
   * The state of one grid component: the container size it has observed, the
   * visible range, the render set, and the three layout refs held as one
   * record. `laidOutCount`/`laidOutWidth` record which count and width the
   * cached layout was computed for.
   */
  class Grid {
    const cell: Cell
    var containerWidth: nat
    var containerHeight: nat
    var visibleRange: Range
    var rendered: seq<Placed>
    var layout: LayoutCache
    ghost var laidOutCount: nat
    ghost var laidOutWidth: nat

    /** The cached layout is either untouched or one complete generation of `Layout`. */
    ghost predicate Valid()
      reads this
    {
      || (layout == InitialCache && laidOutCount == 0 && laidOutWidth == 0)
      || (laidOutCount > 0 && laidOutWidth > 0 && layout == Layout(cell, laidOutCount, laidOutWidth))
    }

    constructor (cell: Cell)
      ensures Valid() && this.cell == cell
      ensures containerWidth == 0 && containerHeight == 0
      ensures visibleRange == Range(0, 0) && rendered == [] && layout == InitialCache
    {
      this.cell := cell;
      containerWidth, containerHeight := 0, 0;
      visibleRange := Range(0, 0);
      rendered := [];
      layout := InitialCache;
      laidOutCount, laidOutWidth := 0, 0;
    }

    /** The resize observer reports a new content size. */
    method Resize(width: nat, height: nat)
      modifies this`containerWidth, this`containerHeight
      ensures containerWidth == width && containerHeight == height
    {
      containerWidth, containerHeight := width, height;
    }

    /** The layout effect: recompute and overwrite all three refs at once, unless skipped. */
    method RecomputeLayout(widgetsCount: nat)
      requires Valid()
      modifies this`layout, this`laidOutCount, this`laidOutWidth
      ensures Valid()
      ensures layout == NextLayout(cell, old(layout), widgetsCount, containerWidth)
      ensures widgetsCount > 0 && containerWidth > 0 ==>
        laidOutCount == widgetsCount && laidOutWidth == containerWidth
    {
      if widgetsCount == 0 || containerWidth == 0 {
        return;
      }
      var positions, widgetsPerRow := PrecomputePositions(cell, widgetsCount, containerWidth);
      layout := LayoutCache(positions, widgetsPerRow, CeilDiv(widgetsCount, widgetsPerRow));
      laidOutCount, laidOutWidth := widgetsCount, containerWidth;
    }

    /** `updateVisibleRange`, reading the scroll offset and client height of the container. */
    method UpdateVisibleRange(widgetsCount: nat, scrollTop: nat, clientHeight: nat)
      requires Valid()
      modifies this`visibleRange
      ensures visibleRange == UpdatedRange(cell, layout, widgetsCount, containerWidth,
                                           scrollTop, clientHeight, old(visibleRange))
      ensures widgetsCount > 0 && containerWidth > 0 && laidOutCount == widgetsCount
              && laidOutWidth == containerWidth
              && scrollTop <= TotalHeight(cell, widgetsCount, containerWidth)
        ==> visibleRange.start <= visibleRange.end <= widgetsCount
    {
      if widgetsCount == 0 || containerWidth == 0 {
        return;
      }
      var widgetsPerRow := layout.widgetsPerRow;
      if widgetsPerRow == 0 {
        return;
      }
      visibleRange := RangeFor(cell, widgetsPerRow, layout.totalRows, widgetsCount, scrollTop, clientHeight);
      if laidOutCount == widgetsCount && laidOutWidth == containerWidth
         && scrollTop <= TotalHeight(cell, widgetsCount, containerWidth) {
        RangeOrdered(cell, widgetsCount, containerWidth, scrollTop, clientHeight);
      }
    }

    /** The render-set effect: rebuild from the current range, widgets and cached positions. */
    method RefreshRenderSet(widgets: seq<Widget>)
      modifies this`rendered
      ensures rendered == NextRenderSet(old(rendered), visibleRange, widgets, layout.positions)
    {
      if visibleRange.start == visibleRange.end {
        return;
      }
      rendered := BuildRenderSet(visibleRange, widgets, layout.positions);
    }

    /**
     * The memoised content height for the current widget count and container
     * width. Once the cached layout is current it agrees with the cache: the
     * cached row count times the row pitch, with every cached cell inside it.
     */
    function ContentHeight(widgetsCount: nat): (h: nat)
      requires Valid()
      reads this
      ensures h == 0 <==> widgetsCount == 0 || containerWidth == 0
      ensures laidOutCount == widgetsCount && laidOutWidth == containerWidth ==>
        && h == layout.totalRows * cell.RowPitch()
        && forall i :: 0 <= i < |layout.positions| ==> layout.positions[i].top + cell.RowPitch() <= h
    {
      TotalHeightFitsLayout(cell, widgetsCount, containerWidth);
      TotalHeight(cell, widgetsCount, containerWidth)
    }
  }
}
