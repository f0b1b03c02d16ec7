/**
 * The list logic of the dashboard (src/components/WidgetDashboard/WidgetDashboard.tsx):
 * decorating the loaded widgets, the id index, applying a pushed value to one
 * widget, and the simulation tick that moves every value one step and
 * reports what changed. The component's state is a class whose methods are
 * its handlers.
 */
module WidgetDashboard {
  import opened WidgetTypes
  import VirtualizedWidgetGrid

  /** What a tick reports for one changed widget: `{id, value}`. */
  datatype Update = Update(id: WidgetId, value: int)

  /** Every widget carries a direction of one step up or one step down. */
  ghost predicate Directed(ws: seq<Widget>)
  {
    forall w :: w in ws ==> w.direction == Some(1) || w.direction == Some(-1)
  }

  /** Every widget carries some direction: what `widget.direction!` takes for granted. */
  ghost predicate HasDirections(ws: seq<Widget>)
  {
    forall w :: w in ws ==> w.direction.Some?
  }

  // ------------------------------------------------------------------ load

  /** The loaded list with `direction: 1` added to every widget (lines 20-23). */
  function Decorate(data: seq<Widget>): (r: seq<Widget>)
    ensures |r| == |data|
    ensures forall i :: 0 <= i < |data| ==>
      && r[i].id == data[i].id && r[i].name == data[i].name && r[i].value == data[i].value
      && r[i].direction == Some(1)
  {
    seq(|data|, i requires 0 <= i < |data| => data[i].(direction := Some(1)))
  }

  /** Decorating establishes the invariant the tick needs, and keeps the ids. */
  lemma DecorateDirected(data: seq<Widget>)
    ensures Directed(Decorate(data))
    ensures Ids(Decorate(data)) == Ids(data)
    ensures IdSet(Decorate(data)) == IdSet(data)
  {
    var r := Decorate(data);
    forall w | w in r ensures w.direction == Some(1) {
      var i :| 0 <= i < |r| && r[i] == w;
    }
    forall x | x in IdSet(r) ensures x in IdSet(data) {
      var i :| 0 <= i < |r| && r[i].id == x;
      assert data[i] in data;
    }
    forall x | x in IdSet(data) ensures x in IdSet(r) {
      var i :| 0 <= i < |data| && data[i].id == x;
      assert r[i] in r;
    }
  }

  // ----------------------------------------------------------------- index

  /**
   * The id index built with `forEach`/`set` (lines 27-30): one key per id in
   * the list, each mapped to the LAST widget carrying that id.
   */
  method BuildIndex(ws: seq<Widget>) returns (index: map<WidgetId, Widget>)
    ensures index.Keys == IdSet(ws)
    ensures forall i :: 0 <= i < |ws| ==>
      (forall j :: i < j < |ws| ==> ws[j].id != ws[i].id) ==> index[ws[i].id] == ws[i]
  {
    index := map[];
    for i := 0 to |ws|
      invariant index.Keys == IdSet(ws[..i])
      invariant forall k :: 0 <= k < i ==>
        (forall j :: k < j < i ==> ws[j].id != ws[k].id) ==> index[ws[k].id] == ws[k]
    {
      assert ws[..i + 1] == ws[..i] + [ws[i]];
      index := index[ws[i].id := ws[i]];
    }
    assert ws[..|ws|] == ws;
  }

  // ---------------------------------------------------------- apply update

  /** `findIndex` by id: the first position holding `id`, or -1. */
  function FindIndex(ws: seq<Widget>, id: WidgetId): (r: int)
    ensures -1 <= r < |ws|
    ensures r == -1 <==> forall i :: 0 <= i < |ws| ==> ws[i].id != id
    ensures r >= 0 ==> ws[r].id == id && forall i :: 0 <= i < r ==> ws[i].id != id
  {
    if |ws| == 0 then -1
    else if ws[0].id == id then 0
    else
      var k := FindIndex(ws[1..], id);
      if k == -1 then -1 else k + 1
  }

  /**
   * The state updater at lines 60-69: an id that is not in the list leaves it
   * as it is; otherwise a copy whose first entry with that id has the new
   * value and keeps its other fields.
   */
  function ApplyUpdate(ws: seq<Widget>, id: WidgetId, value: int): (r: seq<Widget>)
    ensures |r| == |ws|
    ensures (forall i :: 0 <= i < |ws| ==> ws[i].id != id) ==> r == ws
    ensures forall i :: 0 <= i < |ws| ==>
      if ws[i].id == id && forall j :: 0 <= j < i ==> ws[j].id != id
      then r[i] == ws[i].(value := value)
      else r[i] == ws[i]
  {
    var index := FindIndex(ws, id);
    if index == -1 then ws
    else ws[index := ws[index].(value := value)]
  }

  /** Applying an update keeps the ids, their order, and every direction. */
  lemma ApplyUpdateKeepsShape(ws: seq<Widget>, id: WidgetId, value: int)
    ensures Ids(ApplyUpdate(ws, id, value)) == Ids(ws)
    ensures IdSet(ApplyUpdate(ws, id, value)) == IdSet(ws)
    ensures Directed(ws) ==> Directed(ApplyUpdate(ws, id, value))
  {
    var r := ApplyUpdate(ws, id, value);
    forall x | x in IdSet(r) ensures x in IdSet(ws) {
      var i :| 0 <= i < |r| && r[i].id == x;
      assert ws[i] in ws;
    }
    forall x | x in IdSet(ws) ensures x in IdSet(r) {
      var i :| 0 <= i < |ws| && ws[i].id == x;
      assert r[i] in r;
    }
    if Directed(ws) {
      forall w | w in r ensures w.direction == Some(1) || w.direction == Some(-1) {
        var i :| 0 <= i < |r| && r[i] == w;
        assert ws[i] in ws;
      }
    }
  }

  /**
   * The message handler's effect on the list: an id the index does not know
   * changes nothing, a known id goes through `ApplyUpdate`.
   */
  function Deliver(index: map<WidgetId, Widget>, ws: seq<Widget>, u: Update): (r: seq<Widget>)
    ensures u.id !in index ==> r == ws
    ensures |r| == |ws|
  {
    if u.id in index then ApplyUpdate(ws, u.id, u.value) else ws
  }

  /**
   * With an index whose keys are the list's ids, a delivered update always
   * lands: the first widget with that id now holds the new value.
   */
  lemma DeliverLands(index: map<WidgetId, Widget>, ws: seq<Widget>, u: Update)
    requires index.Keys == IdSet(ws) && u.id in index
    ensures FindIndex(ws, u.id) >= 0
    ensures Deliver(index, ws, u)[FindIndex(ws, u.id)].value == u.value
  {
    var w :| w in ws && w.id == u.id;
    var i :| 0 <= i < |ws| && ws[i] == w;
  }

  /**
   * Update isolation: after a pushed value, the grid's render set for the same
   * range and positions differs only in the entry of the first widget with
   * that id, and there only in its value.
   */
  lemma ApplyUpdateIsolatedInRenderSet(range: VirtualizedWidgetGrid.Range, ws: seq<Widget>,
                                       positions: seq<VirtualizedWidgetGrid.Position>, id: WidgetId, value: int)
    ensures var before := VirtualizedWidgetGrid.RenderedBetween(range.start, range.end, ws, positions);
      var after := VirtualizedWidgetGrid.RenderedBetween(range.start, range.end, ApplyUpdate(ws, id, value), positions);
      && |after| == |before|
      && forall k :: 0 <= k < |before| ==>
           && after[k].left == before[k].left && after[k].top == before[k].top
           && (after[k] == before[k] || (before[k].widget.id == id && after[k].widget == before[k].widget.(value := value)))
  {
    var j := FindIndex(ws, id);
    if j >= 0 {
      assert ApplyUpdate(ws, id, value) == ws[j := ws[j].(value := value)];
      VirtualizedWidgetGrid.RenderSetValueIsolation(range.start, range.end, ws, positions, j, value);
    }
  }

  // ------------------------------------------------------------------ tick

  /**
   * The per-widget arithmetic of lines 97-106: one step in the current
   * direction, clamped to [-100, 100], reversing direction at either bound.
   */
  function Advance(value: int, direction: int): (r: (int, int))
    ensures -100 <= r.0 <= 100
    ensures value + direction >= 100 ==> r == (100, -1)
    ensures value + direction <= -100 ==> r == (-100, 1)
    ensures -100 < value + direction < 100 ==> r == (value + direction, direction)
  {
    var newValue := value + direction;
    if newValue >= 100 then (100, -1)
    else if newValue <= -100 then (-100, 1)
    else (newValue, direction)
  }

  /** Whether the step changes the widget's value or direction (line 108). */
  predicate Changes(w: Widget)
    requires w.direction.Some?
  {
    var (newValue, newDirection) := Advance(w.value, w.direction.value);
    newValue != w.value || Some(newDirection) != w.direction
  }

  /** The widget a tick returns: the same widget when nothing changed, else a copy with the new value and direction. */
  function Step(w: Widget): (r: Widget)
    requires w.direction.Some?
    ensures r.id == w.id && r.name == w.name && -100 <= r.value <= 100
    ensures (r.value, r.direction) == (Advance(w.value, w.direction.value).0, Some(Advance(w.value, w.direction.value).1))
    ensures !Changes(w) ==> r == w
  {
    var (newValue, newDirection) := Advance(w.value, w.direction.value);
    if Changes(w) then w.(value := newValue, direction := Some(newDirection)) else w
  }

  /** The list a tick returns. */
  function Ticked(ws: seq<Widget>): (r: seq<Widget>)
    requires HasDirections(ws)
    ensures |r| == |ws| && Ids(r) == Ids(ws)
    ensures forall i :: 0 <= i < |r| ==> -100 <= r[i].value <= 100 && r[i].direction.Some?
  {
    seq(|ws|, i requires 0 <= i < |ws| => Step(ws[i]))
  }

  /** The `updates` a tick pushes, in list order: `{id, value}` of each changed widget. */
  function UpdatesOf(ws: seq<Widget>): (r: seq<Update>)
    requires HasDirections(ws)
    ensures |r| <= |ws|
  {
    if |ws| == 0 then []
    else
      var init, w := ws[..|ws| - 1], ws[|ws| - 1];
      assert forall x :: x in init ==> x in ws;
      UpdatesOf(init) + (if Changes(w) then [Update(w.id, Step(w).value)] else [])
  }

  /**
   * One timer tick (lines 95-114): maps every widget through the step and
   * collects the updates of those that changed.
   */
  method Tick(prev: seq<Widget>) returns (newWidgets: seq<Widget>, updates: seq<Update>)
    requires HasDirections(prev)
    ensures newWidgets == Ticked(prev)
    ensures updates == UpdatesOf(prev)
  {
    newWidgets, updates := [], [];
    for i := 0 to |prev|
      invariant |newWidgets| == i
      invariant forall k :: 0 <= k < i ==> newWidgets[k] == Step(prev[k])
      invariant HasDirections(prev[..i]) && updates == UpdatesOf(prev[..i])
    {
      var widget := prev[i];
      assert prev[..i + 1][..i] == prev[..i];
      var newValue := widget.value + widget.direction.value;
      var newDirection := widget.direction.value;
      if newValue >= 100 {
        newValue := 100;
        newDirection := -1;
      } else if newValue <= -100 {
        newValue := -100;
        newDirection := 1;
      }
      if newValue != widget.value || Some(newDirection) != widget.direction {
        updates := updates + [Update(widget.id, newValue)];
        newWidgets := newWidgets + [widget.(value := newValue, direction := Some(newDirection))];
      } else {
        newWidgets := newWidgets + [widget];
      }
    }
    assert prev[..|prev|] == prev;
  }

  /**
   * A tick keeps the length, the order and the ids; afterwards every value is
   * within [-100, 100]; and directions of one step stay directions of one step.
   */
  lemma TickInvariants(ws: seq<Widget>)
    requires HasDirections(ws)
    ensures |Ticked(ws)| == |ws| && Ids(Ticked(ws)) == Ids(ws) && IdSet(Ticked(ws)) == IdSet(ws)
    ensures forall i :: 0 <= i < |ws| ==> Ticked(ws)[i].name == ws[i].name
    ensures forall w :: w in Ticked(ws) ==> -100 <= w.value <= 100
    ensures Directed(ws) ==> Directed(Ticked(ws))
  {
    var r := Ticked(ws);
    forall x | x in IdSet(r) ensures x in IdSet(ws) {
      var i :| 0 <= i < |r| && r[i].id == x;
      assert ws[i] in ws;
    }
    forall x | x in IdSet(ws) ensures x in IdSet(r) {
      var i :| 0 <= i < |ws| && ws[i].id == x;
      assert r[i] in r;
    }
    forall w | w in r ensures -100 <= w.value <= 100 {
      var i :| 0 <= i < |r| && r[i] == w;
      assert ws[i] in ws;
    }
    if Directed(ws) {
      forall w | w in r ensures w.direction == Some(1) || w.direction == Some(-1) {
        var i :| 0 <= i < |r| && r[i] == w;
        assert ws[i] in ws;
      }
    }
  }

  /** A widget the step leaves alone is returned as it was, and one it changes keeps its id and name. */
  lemma StepUnchangedIsSame(w: Widget)
    requires w.direction.Some?
    ensures !Changes(w) ==> Step(w) == w
    ensures Changes(w) ==> Step(w) != w && Step(w).id == w.id && Step(w).name == w.name
  {
  }

  /**
   * `updates` holds exactly the changed widgets: every update is the
   * `{id, new value}` of some changed widget, and every changed widget has one.
   */
  lemma {:induction false} UpdatesAreChanges(ws: seq<Widget>)
    requires HasDirections(ws)
    ensures forall u :: u in UpdatesOf(ws) ==>
      exists i :: 0 <= i < |ws| && Changes(ws[i]) && u == Update(ws[i].id, Step(ws[i]).value)
    ensures forall i :: 0 <= i < |ws| && Changes(ws[i]) ==> Update(ws[i].id, Step(ws[i]).value) in UpdatesOf(ws)
  {
    if |ws| > 0 {
      var init := ws[..|ws| - 1];
      assert forall x :: x in init ==> x in ws;
      UpdatesAreChanges(init);
      forall u | u in UpdatesOf(ws)
        ensures exists i :: 0 <= i < |ws| && Changes(ws[i]) && u == Update(ws[i].id, Step(ws[i]).value)
      {
        if u in UpdatesOf(init) {
          var i :| 0 <= i < |init| && Changes(init[i]) && u == Update(init[i].id, Step(init[i]).value);
          assert ws[i] == init[i];
        }
      }
      forall i | 0 <= i < |ws| && Changes(ws[i])
        ensures Update(ws[i].id, Step(ws[i]).value) in UpdatesOf(ws)
      {
        if i < |ws| - 1 {
          assert init[i] == ws[i];
        }
      }
    }
  }

  /**
   * `updates` follows list order: the updates of two consecutive stretches of
   * the list are those of the first stretch followed by those of the second.
   */
  lemma {:induction false} UpdatesInListOrder(a: seq<Widget>, b: seq<Widget>)
    requires HasDirections(a) && HasDirections(b)
    ensures HasDirections(a + b)
    ensures UpdatesOf(a + b) == UpdatesOf(a) + UpdatesOf(b)
  {
    if |b| == 0 {
      assert a + b == a;
    } else {
      var init := b[..|b| - 1];
      assert forall x :: x in init ==> x in b;
      assert (a + b)[..|a + b| - 1] == a + init;
      UpdatesInListOrder(a, init);
    }
  }

  /**
   * With every direction one step up or down, every widget changes on every
   * tick, so `updates` has one entry per widget, in list order.
   */
  lemma {:induction false} DirectedAllUpdate(ws: seq<Widget>)
    requires Directed(ws)
    ensures HasDirections(ws)
    ensures UpdatesOf(ws) == seq(|ws|, i requires 0 <= i < |ws| => Update(ws[i].id, Step(ws[i]).value))
  {
    if |ws| > 0 {
      var init := ws[..|ws| - 1];
      assert forall x :: x in init ==> x in ws;
      DirectedAllUpdate(init);
      assert ws[|ws| - 1] in ws;
    }
  }

  // ------------------------------------------------------------- component

  /**
   * The dashboard's state: the widget list and the id index kept beside it.
   * Loading status and the socket are not part of the model.
   */
  class Dashboard {
    var widgets: seq<Widget>
    var index: map<WidgetId, Widget>

    /** Every widget has a one-step direction, and the index knows exactly the list's ids. */
    ghost predicate Valid()
      reads this
    {
      Directed(widgets) && index.Keys == IdSet(widgets)
    }

    constructor ()
      ensures Valid() && widgets == [] && index == map[]
    {
      widgets := [];
      index := map[];
    }

    /** A successful load: store the decorated list and index it. */
    method Load(data: seq<Widget>)
      modifies this
      ensures Valid()
      ensures widgets == Decorate(data)
      ensures index.Keys == IdSet(data)
      ensures forall i :: 0 <= i < |widgets| ==>
        (forall j :: i < j < |widgets| ==> widgets[j].id != widgets[i].id) ==> index[widgets[i].id] == widgets[i]
    {
      var widgetsWithData := Decorate(data);
      widgets := widgetsWithData;
      index := BuildIndex(widgetsWithData);
      DecorateDirected(data);
    }

    /** A pushed `{id, value}` message (lines 52-70). */
    method OnMessage(u: Update)
      requires Valid()
      modifies this
      ensures Valid()
      ensures widgets == Deliver(old(index), old(widgets), u)
      ensures u.id !in old(index) ==> widgets == old(widgets) && index == old(index)
      ensures u.id in old(index) ==> index == old(index)[u.id := old(index)[u.id].(value := u.value)]
      ensures Ids(widgets) == Ids(old(widgets))
    {
      if u.id in index {
        index := index[u.id := index[u.id].(value := u.value)];
        ApplyUpdateKeepsShape(widgets, u.id, u.value);
        widgets := ApplyUpdate(widgets, u.id, u.value);
      }
    }

    /** One interval tick: replace the list and return the updates to send. */
    method OnTick() returns (updates: seq<Update>)
      requires Valid()
      modifies this`widgets
      ensures Valid()
      ensures HasDirections(old(widgets))
      ensures widgets == Ticked(old(widgets)) && updates == UpdatesOf(old(widgets))
      ensures |updates| == |widgets| == |old(widgets)|
    {
      DirectedAllUpdate(widgets);
      TickInvariants(widgets);
      widgets, updates := Tick(widgets);
    }
  }
}
