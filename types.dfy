/** The records shared by the grid and the dashboard (src/types/index.types.ts). */
module WidgetTypes {

  /** A widget id is a string or a number; ids of different kinds never compare equal. */
  datatype WidgetId = StrId(s: string) | NumId(n: int)

  datatype Option<T> = None | Some(value: T)

  /**
   * One widget as the dashboard holds it. `direction` is the simulation's state:
   * absent on the widgets as they arrive, set once the list is loaded.
   * The `style` and `position` fields of the props are presentation only.
   */
  datatype Widget = Widget(id: WidgetId, name: Option<string>, value: int, direction: Option<int>)

  /** The ids of a list, in list order. */
  function Ids(ws: seq<Widget>): (r: seq<WidgetId>)
    ensures |r| == |ws|
  {
    seq(|ws|, i requires 0 <= i < |ws| => ws[i].id)
  }

  /** The set of ids that occur in a list. */
  function IdSet(ws: seq<Widget>): set<WidgetId>
  {
    set w | w in ws :: w.id
  }
}
