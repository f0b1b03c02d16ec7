# Widget dashboard: windowing engine and update logic, in Dafny

This project models the two pieces of integer logic in a React widget dashboard
that shows a large, continuously updated collection of fixed-size widgets.

- **The virtualized grid** (`VirtualizedWidgetGrid`, `grid.dfy`). Given a widget
  count, a container width and the fixed cell geometry (`WIDGET_WIDTH`,
  `WIDGET_HEIGHT`, `WIDGET_SPACING`, here the positive naturals of a `Cell`), it
  computes how many widgets fit per row, the position of every widget index,
  the number of rows, and the content height. Given the scroll offset and the
  viewport height, it computes the half-open range of indices to render: one
  row of lookbehind plus two extra rows. It then builds the render set by
  pairing each index in that range with its widget and its position. The
  component's state (container size, visible range, render set and the three
  layout refs, held as one `LayoutCache` record) is the class `Grid`. Its
  methods are the component's effects, and an early return leaves the state
  unchanged.
- **The dashboard's list logic** (`WidgetDashboard`, `dashboard.dfy`). This
  covers:
  - the load-time decoration that gives every widget `direction: 1`;
  - the id index built beside the list;
  - the handler that applies a pushed `{id, value}` to the first widget with
    that id;
  - the simulation tick. The tick moves every value one step in its direction,
    clamps it to [-100, 100], reverses the direction at either bound and lists
    the widgets that changed.

  The component's state is the class `Dashboard`.

`types.dfy` (`WidgetTypes`) holds the widget record. A widget id is a string
or a number, and the two kinds never compare equal. `arith.dfy` (`IntMath`)
holds `Math.ceil` of a quotient as `CeilDiv` and the division facts the
proofs use.

What the grid's proofs establish:

- The layout is a bijection between indices and grid cells.
- `totalRows` counts exactly the occupied rows.
- The content height contains every cell.
- The visible range never passes the widget count.
- The visible range starts at 0 at the top.
- The visible range is ordered while the scroll offset stays inside the
  content.
- The visible range contains every widget whose cell overlaps the viewport.
- The render set is the contiguous run of indices, from the range start,
  that has both a widget and a position, in index order.

What the dashboard's proofs establish:

- A tick keeps the ids and the order.
- A tick bounds every value.
- A tick preserves one-step directions.
- A tick's `updates` are exactly the changed widgets, in list order.
- A pushed value changes only its own entry of the render set.

Where the behaviour is not what one might assume:

- `start <= end` is not unconditional. It holds when the cached layout belongs
  to the current count and `scrollTop` is at most the content height
  (`RangeOrdered`). Past the content, the range inverts
  (`RangeInvertsPastContent`: start 84, end 60). The browser keeps `scrollTop`
  inside the scroll extent, so this does not happen in practice.
- When the range is empty, the previous render set is kept, not cleared.
- `totalHeight` is computed from the container width directly, not from the
  cached layout. The two agree whenever the cache belongs to the current count
  and width (`Grid.ContentHeight`).

## Model

| member | source | states |
|---|---|---|
| `IntMath.CeilDiv` | src/components/VirtualizedWidgetGrid/VirtualizedWidgetGrid.tsx:59 | `Math.ceil(a / b)` is the least `r` with `a <= r * b` |
| `VirtualizedWidgetGrid.WidgetsPerRow` | src/components/VirtualizedWidgetGrid/VirtualizedWidgetGrid.tsx:22-27 | at least one column for every width (0 included); the columns fit in the width unless there is only the one forced column; one more column would not fit |
| `VirtualizedWidgetGrid.WidgetsPerRowMonotone` | src/components/VirtualizedWidgetGrid/VirtualizedWidgetGrid.tsx:22-27 | a wider container never gets fewer columns |
| `VirtualizedWidgetGrid.PositionAt` | src/components/VirtualizedWidgetGrid/VirtualizedWidgetGrid.tsx:35-42 | the column of index `i` is below the column count, and `row * perRow + col == i` |
| `VirtualizedWidgetGrid.PositionAtInverse` | src/components/VirtualizedWidgetGrid/VirtualizedWidgetGrid.tsx:35-42 | the index `row * perRow + col`, with `col < perRow`, is placed in row `row`, column `col` |
| `VirtualizedWidgetGrid.PositionsDistinct` | src/components/VirtualizedWidgetGrid/VirtualizedWidgetGrid.tsx:35-42 | distinct indices get distinct (row, col) pairs and distinct (left, top) offsets |
| `VirtualizedWidgetGrid.PrecomputePositions` | src/components/VirtualizedWidgetGrid/VirtualizedWidgetGrid.tsx:29-48 | the loop fills exactly `widgetsCount` slots; slot `i` holds row `i div perRow`, column `i mod perRow` and the matching offsets; the column count is `WidgetsPerRow` |
| `VirtualizedWidgetGrid.Layout` | src/components/VirtualizedWidgetGrid/VirtualizedWidgetGrid.tsx:50-59 | one position per widget and at least one column |
| `VirtualizedWidgetGrid.LayoutCoversAll` | src/components/VirtualizedWidgetGrid/VirtualizedWidgetGrid.tsx:32-59 | one position per index; `colIndex < perRow` and `rowIndex < totalRows`; `index == row * perRow + col`; `left`/`top` are the column/row times the pitch; `totalRows` is 0 only for no widgets; the last row is occupied |
| `VirtualizedWidgetGrid.NextLayout` | src/components/VirtualizedWidgetGrid/VirtualizedWidgetGrid.tsx:50-60 | no widgets or no width leave the cached refs as they were; otherwise one position per widget and the column count of `calculateWidgetsPerRow` |
| `VirtualizedWidgetGrid.TotalHeight` | src/components/VirtualizedWidgetGrid/VirtualizedWidgetGrid.tsx:148-153 | the content height is 0 exactly when there are no widgets or no width |
| `VirtualizedWidgetGrid.TotalHeightFitsLayout` | src/components/VirtualizedWidgetGrid/VirtualizedWidgetGrid.tsx:148-153 | height is 0 exactly for no widgets or no width; otherwise it is `totalRows * (H + S)`; every cell lies inside it; the last row reaches its bottom |
| `VirtualizedWidgetGrid.RangeFor` | src/components/VirtualizedWidgetGrid/VirtualizedWidgetGrid.tsx:72-81 | `end <= count` always; scroll offset 0 gives `start == 0` |
| `VirtualizedWidgetGrid.UpdatedRange` | src/components/VirtualizedWidgetGrid/VirtualizedWidgetGrid.tsx:62-84 | no widgets, no width or a zero cached column count leave the range unchanged; otherwise `end <= count`, and scroll offset 0 gives `start == 0` |
| `VirtualizedWidgetGrid.RangeOrdered` | src/components/VirtualizedWidgetGrid/VirtualizedWidgetGrid.tsx:72-81 | with the layout of the current count and a scroll offset at most the content height, `start <= end <= count` |
| `VirtualizedWidgetGrid.RangeInvertsPastContent` | src/components/VirtualizedWidgetGrid/VirtualizedWidgetGrid.tsx:72-81 | past the content (60 widgets, 4 columns, scroll 2000) the range is `{84, 60}`: ordering needs the scroll bound |
| `VirtualizedWidgetGrid.RangeCoversViewport` | src/components/VirtualizedWidgetGrid/VirtualizedWidgetGrid.tsx:72-81 | every widget whose cell overlaps `[scrollTop, scrollTop + height)` lies in `[start, end)` |
| `VirtualizedWidgetGrid.RangeAtTopExample` | src/components/VirtualizedWidgetGrid/VirtualizedWidgetGrid.tsx:72-81 | 60 widgets of 100x80 spaced 10, 4 columns, height 300, scroll 0: 15 rows and range `{0, 24}` |
| `VirtualizedWidgetGrid.RangeScrolledExample` | src/components/VirtualizedWidgetGrid/VirtualizedWidgetGrid.tsx:72-81 | the same grid at scroll 450: range `{16, 40}` |
| `VirtualizedWidgetGrid.RenderedBetween` | src/components/VirtualizedWidgetGrid/VirtualizedWidgetGrid.tsx:127-143 | the pushed entries are the indices `start, start+1, ...` below `min(end, #widgets, #positions)`, in order, each the widget plus its position's `left`/`top` |
| `VirtualizedWidgetGrid.BuildRenderSet` | src/components/VirtualizedWidgetGrid/VirtualizedWidgetGrid.tsx:127-145 | the loop with its skip produces exactly `RenderedBetween` of the range |
| `VirtualizedWidgetGrid.NextRenderSet` | src/components/VirtualizedWidgetGrid/VirtualizedWidgetGrid.tsx:124-146 | an empty range leaves the previous render set unchanged; otherwise entry `k` is the widget of index `start + k` with its position's `left`/`top`, for every index from `start` below `min(end, #widgets, #positions)`, and there are no more entries than the range is wide |
| `VirtualizedWidgetGrid.RenderSetValueIsolation` | src/components/VirtualizedWidgetGrid/VirtualizedWidgetGrid.tsx:124-146 | replacing widget `j`'s value changes only the render entry of index `j`, and only its value; all offsets stay |
| `VirtualizedWidgetGrid.Grid.constructor` | src/components/VirtualizedWidgetGrid/VirtualizedWidgetGrid.tsx:14-20 | range `{0, 0}`, empty render set, zero size, layout refs `[]`, 0, 0 |
| `VirtualizedWidgetGrid.Grid.Resize` | src/components/VirtualizedWidgetGrid/VirtualizedWidgetGrid.tsx:113-117 | the observed content size becomes the container size |
| `VirtualizedWidgetGrid.Grid.RecomputeLayout` | src/components/VirtualizedWidgetGrid/VirtualizedWidgetGrid.tsx:50-60 | skipped for no widgets or no width; otherwise all three refs are replaced by one complete layout for the current count and width |
| `VirtualizedWidgetGrid.Grid.UpdateVisibleRange` | src/components/VirtualizedWidgetGrid/VirtualizedWidgetGrid.tsx:62-84 | the new range is `UpdatedRange` of the cached layout; with a current layout and the scroll offset inside the content it is ordered and within the count |
| `VirtualizedWidgetGrid.Grid.RefreshRenderSet` | src/components/VirtualizedWidgetGrid/VirtualizedWidgetGrid.tsx:124-146 | the render set becomes `NextRenderSet` of the range, widgets and cached positions |
| `VirtualizedWidgetGrid.Grid.ContentHeight` | src/components/VirtualizedWidgetGrid/VirtualizedWidgetGrid.tsx:148-153 | the height is 0 exactly for no widgets or no width; when the cache belongs to the current count and width, the height is the cached row count times the row pitch and every cached cell lies inside it |
| `WidgetDashboard.Decorate` | src/components/WidgetDashboard/WidgetDashboard.tsx:20-23 | same length and order; id, name and value kept; every direction set to 1 |
| `WidgetDashboard.DecorateDirected` | src/components/WidgetDashboard/WidgetDashboard.tsx:20-23 | the decorated list has one-step directions and the same ids |
| `WidgetDashboard.BuildIndex` | src/components/WidgetDashboard/WidgetDashboard.tsx:27-30 | the keys are exactly the list's ids; each id maps to the last widget with that id |
| `WidgetDashboard.FindIndex` | src/components/WidgetDashboard/WidgetDashboard.tsx:61-63 | -1 exactly when no widget has the id; otherwise the first position holding it |
| `WidgetDashboard.ApplyUpdate` | src/components/WidgetDashboard/WidgetDashboard.tsx:60-69 | length kept; an absent id returns the list unchanged; only the first entry with the id gets the new value and keeps its other fields; every other entry is untouched |
| `WidgetDashboard.ApplyUpdateKeepsShape` | src/components/WidgetDashboard/WidgetDashboard.tsx:60-69 | ids, their order and one-step directions survive an update |
| `WidgetDashboard.Deliver` | src/components/WidgetDashboard/WidgetDashboard.tsx:55-69 | a message whose id is not in the index changes nothing |
| `WidgetDashboard.DeliverLands` | src/components/WidgetDashboard/WidgetDashboard.tsx:55-69 | with an index over the list's ids, a known id is always found and its first widget holds the new value |
| `WidgetDashboard.ApplyUpdateIsolatedInRenderSet` | src/components/WidgetDashboard/WidgetDashboard.tsx:60-69 | after a pushed value, every render entry keeps its offsets and is unchanged except the entry of that id, which changes only its value |
| `WidgetDashboard.Advance` | src/components/WidgetDashboard/WidgetDashboard.tsx:97-106 | the result is within [-100, 100]; `value + direction` when strictly inside; 100 with direction -1 at or above 100; -100 with direction 1 at or below -100 |
| `WidgetDashboard.Step` | src/components/WidgetDashboard/WidgetDashboard.tsx:97-113 | id and name kept; value and direction are those `Advance` gives, so the value is within [-100, 100]; an unchanged widget is returned as it is |
| `WidgetDashboard.Ticked` | src/components/WidgetDashboard/WidgetDashboard.tsx:96-113 | same length and ids in the same order; every value within [-100, 100], every widget with a direction |
| `WidgetDashboard.UpdatesOf` | src/components/WidgetDashboard/WidgetDashboard.tsx:96-113 | at most one update per widget |
| `WidgetDashboard.Tick` | src/components/WidgetDashboard/WidgetDashboard.tsx:95-114 | the loop returns the list of stepped widgets and exactly the `updates` of the changed ones, in list order |
| `WidgetDashboard.TickInvariants` | src/components/WidgetDashboard/WidgetDashboard.tsx:96-114 | a tick keeps length, order, ids and names; afterwards every value is in [-100, 100]; one-step directions stay one-step |
| `WidgetDashboard.StepUnchangedIsSame` | src/components/WidgetDashboard/WidgetDashboard.tsx:108-113 | a widget whose value and direction do not change is returned as it is |
| `WidgetDashboard.UpdatesAreChanges` | src/components/WidgetDashboard/WidgetDashboard.tsx:108-113 | every update is `{id, new value}` of a changed widget, and every changed widget has one |
| `WidgetDashboard.UpdatesInListOrder` | src/components/WidgetDashboard/WidgetDashboard.tsx:95-113 | the updates of a list split in two are the first part's updates followed by the second part's, so `updates` keeps list order |
| `WidgetDashboard.DirectedAllUpdate` | src/components/WidgetDashboard/WidgetDashboard.tsx:97-113 | with one-step directions every widget changes, so `updates` has one entry per widget, in list order |
| `WidgetDashboard.Dashboard.constructor` | src/components/WidgetDashboard/WidgetDashboard.tsx:8-10 | empty list and empty index |
| `WidgetDashboard.Dashboard.Load` | src/components/WidgetDashboard/WidgetDashboard.tsx:20-31 | the state becomes the decorated list and an index over exactly its ids; each id maps to the last widget carrying it |
| `WidgetDashboard.Dashboard.OnMessage` | src/components/WidgetDashboard/WidgetDashboard.tsx:52-70 | the list becomes `Deliver` of the old index and list; an unknown id changes nothing; a known id's index entry takes the new value and no other entry changes; ids and the index invariant are kept |
| `WidgetDashboard.Dashboard.OnTick` | src/components/WidgetDashboard/WidgetDashboard.tsx:93-127 | the list becomes its tick; the returned updates are the tick's, one per widget; the invariant is kept |

## Left out

- Scroll coalescing is left out. The source delays `updateVisibleRange` by 16 ms, restarts the timer on each scroll event and cancels it on teardown. The model has no timers: a caller invokes `Grid.UpdateVisibleRange` with the latest scroll offset, which amounts to one pending recomputation.
- The scroll-listener and `ResizeObserver` setup and teardown are left out. Only the observer's callback is modelled, as `Grid.Resize`.
- Effect ordering is left out. React's hooks, dependency lists and memoisation are not modelled. The class methods are the effects, and the caller invokes them.
- The `!container` checks (lines 64, 88 and 111) are left out. They test React's ref to the DOM node, and the model assumes a mounted container.
- Geometry is integral. Container width, height and `scrollTop` are naturals, and `Math.floor`/`Math.ceil` of a quotient are integer division and `CeilDiv`. Fractional pixel sizes are not modelled.
- The following I/O is left out: `fetch`, JSON parsing, the WebSocket's open, close and error handlers, `send`, and console logging. The model covers only the list transformations they feed. A failed load leaves the state untouched, and `Dashboard.Load` models only the successful path.
- `WidgetDashboard.Dashboard.OnTick` returns the updates instead of sending them. In the source they are sent only when the socket is open and the list of updates is not empty.
- The `loading` flag and the rendered markup are left out.
- Shared widget objects are left out. The handler mutates the indexed widget object in place (`widget.value = update.value`), and that object may also be in the list. The model replaces the index entry by value. The widget objects in the index are only ever tested for presence.
- Widget values, `direction` and ids of the number kind are unbounded integers. NaN and non-integral numbers are not modelled.
- `WidgetDashboard.Tick` requires every widget to carry a direction, which the source's `widget.direction!` assumes. Loading establishes this, and every later step keeps it.
- `src/components/Widget/Widget.tsx` is not part of this model. It only picks a colour from `value`.
- The interfaces in `src/types/index.types.ts` shape the `Widget` datatype. Their `style` and `position` props are presentation and are left out.
