/** The box menu of src/panda_util/selection.py: a `Selection` that shows
    its options as a table, built once when the menu is made and restyled
    before every frame. */
module BoxMenu {
  import opened Wrappers
  import opened PyStr
  import opened PyObj
  import opened RichTable
  import opened Options
  import opened Navigation
  import opened Menu
  import Painter
  import opened BoxSpec
  import opened MenuRun

  /** The row `add_row` receives for one option: its truthy name and
      description, the cell of its truthy value, then `str` of each info
      value that is not None; AttributeError when the info has no
      `values()`. */
  method BuildRow(o: SelectionOption) returns (r: Result<Row, PyError>)
    ensures r == BoxRow(o)
  {
    var cells: seq<string> := [];
    if o.name != "" {
      cells := cells + [o.name];
    }
    if o.description != "" {
      cells := cells + [o.description];
    }
    if IsTruthy(o.value) {
      if o.value.PyDict? && |o.value.entries| > 0 {
        cells := cells + [Str(o.value.entries[0].0)];
      } else {
        cells := cells + [Str(o.value)];
      }
    }
    assert cells == FieldCells(o);
    var values := DictValues(o.additionalInfo);
    if values.Err? {
      return Err(values.error);
    }
    ghost var fields := cells;
    for j := 0 to |values.value|
      invariant cells == fields + InfoCells(values.value[..j])
    {
      InfoCellsStep(fields, values.value, j);
      if values.value[j] != PyNone {
        cells := cells + [Str(values.value[j])];
      }
    }
    assert values.value[..|values.value|] == values.value;
    return Ok(Row(Cells(cells), None));
  }

  class BoxSelection {
    const base: Selection
    var table: Table

    /** The fields `BoxSelection.__init__` sets before it builds the table:
        the base menu's fields and an empty `Table()`. */
    constructor (title: string, options: seq<SelectionOption>, startingIndex: int, highlightStyle: string,
                 normalStyle: string, cancellable: bool, actionCallback: Option<ActionCallback>)
      ensures fresh(base)
      ensures base.title == title && base.options == options && base.index == startingIndex
      ensures base.highlightStyle == highlightStyle && base.normalStyle == normalStyle
      ensures base.cancellable == cancellable && base.actionCallback == actionCallback
      ensures base.invocations == [] && table == EmptyTable
    {
      base := new Selection(title, options, startingIndex, highlightStyle, normalStyle, cancellable,
                            actionCallback);
      table := EmptyTable;
    }

    /** `BoxSelection(...)`: the menu with its table built, or the error
        building the table raised. */
    static method New(title: string, options: seq<SelectionOption>, startingIndex: int, highlightStyle: string,
                      normalStyle: string, cancellable: bool, actionCallback: Option<ActionCallback>)
      returns (r: Result<BoxSelection, PyError>)
      ensures BoxTable(title, options).Err? <==> r.Err?
      ensures r.Err? ==> r.error == BoxTable(title, options).error
      ensures r.Ok? ==> var m := r.value;
                        && fresh(m) && fresh(m.base) && m.table == BoxTable(title, options).value
                        && m.base.title == title && m.base.options == options && m.base.index == startingIndex
                        && m.base.highlightStyle == highlightStyle && m.base.normalStyle == normalStyle
                        && m.base.cancellable == cancellable && m.base.actionCallback == actionCallback
                        && m.base.invocations == []
    {
      var m := new BoxSelection(title, options, startingIndex, highlightStyle, normalStyle, cancellable,
                                actionCallback);
      var err := m.InitializeTable();
      if err.Some? {
        return Err(err.value);
      }
      return Ok(m);
    }

    /** `initialize_table`: with options, set the title, add the columns of
        the first option and then one row per option, stopping at the first
        exception. */
    method InitializeTable() returns (err: Option<PyError>)
      requires table == EmptyTable
      modifies this
      ensures BoxTable(base.title, base.options).Ok? <==> err == None
      ensures err == None ==> table == BoxTable(base.title, base.options).value
      ensures err != None ==> err == Some(BoxTable(base.title, base.options).error)
    {
      if base.options == [] {
        return None;
      }
      table := table.(title := Some(base.title));
      err := AddColumns(base.options[0]);
      if err != None {
        return;
      }
      err := AddRows();
    }

    /** The column part of `initialize_table`: a column for each truthy
        field of `item`, then one per key of its additional info, with the
        key's first character upper-cased when it is a string. */
    method AddColumns(item: SelectionOption) returns (err: Option<PyError>)
      requires table.columns == []
      modifies this
      ensures BoxColumns(item).Ok? <==> err == None
      ensures err == None ==> table == old(table).(columns := BoxColumns(item).value)
      ensures err != None ==> err == Some(BoxColumns(item).error)
    {
      AddFieldColumns(item);
      var keys := DictKeys(item.additionalInfo);
      if keys.Err? {
        return Some(keys.error);
      }
      var headers := [];
      for j := 0 to |keys.value|
        invariant table == old(table).(columns := FieldColumns(item))
        invariant TryMap(keys.value[..j], Header) == Ok(headers)
      {
        TryMapStep(keys.value, Header, j);
        var header := Header(keys.value[j]);
        if header.Err? {
          TryMapStops(keys.value, Header, j + 1);
          return Some(header.error);
        }
        headers := headers + [header.value];
      }
      assert keys.value[..|keys.value|] == keys.value;
      table := table.(columns := table.columns + headers);
      return None;
    }

    /** A column for each truthy field of `item`: Name, Description, Value. */
    method AddFieldColumns(item: SelectionOption)
      modifies this
      requires table.columns == []
      ensures table == old(table).(columns := FieldColumns(item))
    {
      ghost var t0 := table;
      if item.name != "" {
        table := table.(columns := table.columns + [PyStr("Name")]);
      }
      if item.description != "" {
        table := table.(columns := table.columns + [PyStr("Description")]);
      }
      if IsTruthy(item.value) {
        table := table.(columns := table.columns + [PyStr("Value")]);
      }
      assert table.columns == FieldColumns(item);
    }

    /** The row part of `initialize_table`: one row per option, in order. */
    method AddRows() returns (err: Option<PyError>)
      requires table.rows == []
      modifies this
      ensures TryMap(base.options, BoxRow).Ok? <==> err == None
      ensures err == None ==> table == old(table).(rows := TryMap(base.options, BoxRow).value)
      ensures err != None ==> err == Some(TryMap(base.options, BoxRow).error)
    {
      for i := 0 to |base.options|
        invariant TryMap(base.options[..i], BoxRow) == Ok(table.rows)
        invariant table == old(table).(rows := table.rows)
      {
        TryMapStep(base.options, BoxRow, i);
        var row := BuildRow(base.options[i]);
        if row.Err? {
          TryMapStops(base.options, BoxRow, i + 1);
          return Some(row.error);
        }
        table := table.(rows := table.rows + [row.value]);
      }
      assert base.options[..|base.options|] == base.options;
      return None;
    }

    /** The body of one pass of `run` up to the key: clear the buffer,
        restyle every row for the current index, append the table and the
        controls line, and render. */
    method Paint(display: Painter.Display<Widget>, size: Painter.Size)
      requires display.Valid()
      modifies this, display
      ensures display.Valid()
      ensures table == Restyled(old(table), base.index, base.highlightStyle, base.normalStyle)
      ensures display.history == old(display.history) + FrameCalls(false, BoxFrame(table, base.cancellable), size)
    {
      ghost var h0 := display.history;
      display.ClearBuffer();
      RestyleRows();
      ghost var frame := [Painter.ClearBufferCall, Painter.AppendCall(TableWidget(table)),
                          Painter.AppendCall(Markup(Controls(base.cancellable))), Painter.DisplayTextCall(true, size)];
      assert frame == FrameCalls(false, BoxFrame(table, base.cancellable), size);
      var _ := display.Append(TableWidget(table));
      var _ := display.Append(Markup(Controls(base.cancellable)));
      var _ := display.DisplayText(true, size);
      assert display.history == h0 + frame;
    }

    /** The loop over the rows that gives the row at the index the
        highlight style and every other row the normal style. */
    method RestyleRows()
      modifies this
      ensures table == Restyled(old(table), base.index, base.highlightStyle, base.normalStyle)
    {
      ghost var t0 := table;
      ghost var styled := Restyled(t0, base.index, base.highlightStyle, base.normalStyle);
      for i := 0 to |table.rows|
        invariant table.title == t0.title && table.columns == t0.columns && |table.rows| == |t0.rows|
        invariant forall j :: 0 <= j < i ==> table.rows[j] == styled.rows[j]
        invariant forall j :: i <= j < |t0.rows| ==> table.rows[j] == t0.rows[j]
      {
        var style := if i == base.index then base.highlightStyle else base.normalStyle;
        table := table.(rows := table.rows[i := table.rows[i].(style := Some(style))]);
      }
      assert table.rows == styled.rows;
    }

    /** One pass of `run`'s loop: paint the frame, then read the key at
        `k` and handle it; `None` when the keys ran out before it. The
        table is restyled from `t0`, the table the run started with. */
    method Pass(display: Painter.Display<Widget>, keys: seq<string>, k: nat, size: Painter.Size, ghost t0: Table)
      returns (step: Option<Step>)
      requires base.options != [] && k <= |keys| && SameCells(t0, table) && display.Valid()
      modifies this, base, display
      ensures display.Valid()
      ensures LoopPassed(base, Boxed(t0), keys, k, size, old(base.index), old(display.history),
                         old(base.invocations), step, base.index, base.invocations, display.history)
      ensures table == Restyled(t0, old(base.index), base.highlightStyle, base.normalStyle)
    {
      RestyledForgets(table, t0, base.index, base.highlightStyle, base.normalStyle);
      Paint(display, size);
      if k == |keys| {
        return None;
      }
      var s := base.HandleUserInput(display, keys[k]);
      return Some(s);
    }

    /** `run` with the keys read from `keys`. With no options it returns
        None at once, touching nothing. Otherwise it clears the display,
        then paints a frame of the table before each key and acts on the
        key, as the session `Drive` describes; the table keeps the styles
        of the last frame. */
    method Run(display: Painter.Display<Widget>, keys: seq<string>, sizes: seq<Painter.Size>) returns (r: Outcome)
      requires display.Valid() && |keys| < |sizes|
      modifies this, base, display
      ensures display.Valid()
      ensures base.options == [] ==> r == Returned(None) && display.history == old(display.history)
                                     && base.index == old(base.index) && base.invocations == old(base.invocations)
                                     && table == old(table)
      ensures base.options != [] ==>
                && LoopEnd(base, Boxed(old(table)), old(base.index), keys, sizes, old(display.history),
                           old(base.invocations), r, base.index, base.invocations, display.history)
                && table == Restyled(old(table), base.index, base.highlightStyle, base.normalStyle)
    {
      if base.options == [] {
        return Returned(None);
      }
      ghost var h0 := display.history;
      ghost var start := base.index;
      ghost var inv0 := base.invocations;
      ghost var t0 := table;
      display.Clear();
      LoopStart(base, Boxed(t0), start, keys, sizes, h0);
      var k := 0;
      while true
        invariant 0 <= k <= |keys|
        invariant base.invocations == inv0 && SameCells(t0, table)
        invariant LoopTrack(base, Boxed(t0), start, keys, sizes, h0, base.index, k, display.history)
        invariant display.Valid()
        decreases |keys| - k
      {
        ghost var index := base.index;
        ghost var h1 := display.history;
        var step := Pass(display, keys, k, sizes[k], t0);
        LoopPass(base, Boxed(t0), start, keys, sizes, h0, inv0, index, k, h1, step, base.index, base.invocations,
                 display.history);
        match step {
          case None =>
            return AwaitingKey;
          case Some(Continue) =>
          case Some(Stop(v)) =>
            return Returned(v);
          case Some(Fail(e)) =>
            return Raised(e);
        }
        k := k + 1;
      }
    }
  }
}
