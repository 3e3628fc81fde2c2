/** The legacy menu of selection.py (src/selection.py is the same text):
    one class that builds its table when made and whose `display` loop
    fully clears the display before each frame, highlights the row at the
    index for the render and puts that row back in the normal style. */
module LegacyMenu {
  import opened Wrappers
  import opened PyObj
  import opened RichTable
  import opened Options
  import opened Navigation
  import opened Menu
  import Painter
  import opened BoxSpec
  import opened LegacySpec

  /** The display calls of the legacy frames painted at `frames`, on a
      table that was `t0` before the first of them; the terminal size is
      read again for each frame, and frame `i` finds `sizes[i]`. */
  function LegacyFrames(sel: LegacySelection, t0: Table, frames: seq<int>, sizes: seq<Painter.Size>)
    : (r: seq<Painter.Call<Widget>>)
    requires |frames| <= |sizes|
    ensures |r| == 4 * |frames|
  {
    if frames == [] then []
    else
      var before := frames[..|frames| - 1];
      LegacyFrames(sel, t0, before, sizes)
        + FrameCalls(true, LegacyFrame(Reset(t0, before, sel.normalStyle), frames[|frames| - 1], sel.highlightStyle,
                                       sel.cancellable), sizes[|frames| - 1])
  }

  /** The loop of a legacy run is on track: the frames painted so far are
      the first `k` of the session, the menu is at the index of the next
      one, the display received those frames and the table holds the
      styles they left behind. */
  ghost predicate LegacyTrack(sel: LegacySelection, start: int, keys: seq<string>, sizes: seq<Painter.Size>, t0: Table,
                              h0: seq<Painter.Call<Widget>>, index: int, k: nat, h: seq<Painter.Call<Widget>>,
                              table: Table)
    requires sel.options != []
  {
    var s := Drive(start, |sel.options|, sel.cancellable, keys);
    && |keys| < |sizes|
    && k < |s.frames| && s.frames[k] == index
    && h == h0 + LegacyFrames(sel, t0, s.frames[..k], sizes)
    && table == Reset(t0, s.frames[..k], sel.normalStyle)
  }

  /** The loop starts on track, before any call on the display. */
  lemma LegacyStart(sel: LegacySelection, start: int, keys: seq<string>, sizes: seq<Painter.Size>, t0: Table,
                    h0: seq<Painter.Call<Widget>>)
    requires sel.options != [] && |keys| < |sizes|
    ensures LegacyTrack(sel, start, keys, sizes, t0, h0, start, 0, h0, t0)
  {
    var s := Drive(start, |sel.options|, sel.cancellable, keys);
    assert s.frames[..0] == [];
  }

  /** A legacy run from `start` over `keys` ended as its session says: its
      result, its last index, the callback calls, the calls on the display
      and the styles left in the table. */
  ghost predicate LegacyEnd(sel: LegacySelection, start: int, keys: seq<string>, sizes: seq<Painter.Size>, t0: Table,
                            h0: seq<Painter.Call<Widget>>, inv0: seq<Invocation>, r: Outcome, index: int,
                            inv: seq<Invocation>, h: seq<Painter.Call<Widget>>, table: Table)
    requires sel.options != []
  {
    var s := Drive(start, |sel.options|, sel.cancellable, keys);
    && |keys| < |sizes|
    && r == RunOutcome(sel.options, s)
    && index == LastIndex(s)
    && inv == inv0 + RunInvocations(sel.actionCallback, sel.options, s)
    && h == h0 + LegacyFrames(sel, t0, s.frames, sizes)
    && table == Reset(t0, s.frames, sel.normalStyle)
  }

  /** What one pass of the legacy loop did: it painted the frame at `index`
      on the table `t1`, left that row in the normal style, then, while keys
      remain, acted on key `k`. */
  ghost predicate LegacyPassed(sel: LegacySelection, keys: seq<string>, k: nat, size: Painter.Size, index: int,
                               h1: seq<Painter.Call<Widget>>, t1: Table, inv0: seq<Invocation>, step: Option<Step>,
                               index2: int, inv: seq<Invocation>, h: seq<Painter.Call<Widget>>, table: Table)
    requires sel.options != []
  {
    && k <= |keys|
    && (k == |keys| ==> step == None && index2 == index && inv == inv0)
    && (k < |keys| ==>
          var a := KeyAction(index, |sel.options|, sel.cancellable, keys[k]);
          && step == Some(StepOf(sel.options, sel.cancellable, index, keys[k]))
          && index2 == (if a.MoveTo? then a.index else index)
          && inv == inv0 + (if a == Choose then ChoiceInvocations(sel.actionCallback, sel.options, index) else []))
    && h == h1 + FrameCalls(true, LegacyFrame(t1, index, sel.highlightStyle, sel.cancellable), size)
    && table == SetStyle(t1, index, sel.normalStyle)
  }

  /** One pass of the legacy loop either keeps the loop on track, or ends
      the run as its session says at the index it painted last. */
  lemma {:induction false} LegacyPass(sel: LegacySelection, start: int, keys: seq<string>, sizes: seq<Painter.Size>,
                                      t0: Table, h0: seq<Painter.Call<Widget>>, inv0: seq<Invocation>, index: int,
                                      k: nat, h1: seq<Painter.Call<Widget>>, t1: Table, step: Option<Step>,
                                      index2: int, inv: seq<Invocation>, h: seq<Painter.Call<Widget>>, table: Table)
    requires sel.options != [] && k <= |keys| < |sizes|
    requires LegacyTrack(sel, start, keys, sizes, t0, h0, index, k, h1, t1)
    requires LegacyPassed(sel, keys, k, sizes[k], index, h1, t1, inv0, step, index2, inv, h, table)
    ensures step == None ==> LegacyEnd(sel, start, keys, sizes, t0, h0, inv0, AwaitingKey, index2, inv, h, table)
    ensures step == Some(Continue) ==>
              k < |keys| && inv == inv0 && LegacyTrack(sel, start, keys, sizes, t0, h0, index2, k + 1, h, table)
    ensures step.Some? && step.value.Stop? ==>
              LegacyEnd(sel, start, keys, sizes, t0, h0, inv0, Returned(step.value.value), index2, inv, h, table)
    ensures step.Some? && step.value.Fail? ==>
              LegacyEnd(sel, start, keys, sizes, t0, h0, inv0, Raised(step.value.error), index2, inv, h, table)
  {
    var n := |sel.options|;
    var s := Drive(start, n, sel.cancellable, keys);
    DriveAt(start, n, sel.cancellable, keys, k);
    LegacyPainted(sel, t0, s.frames, k, sizes, h0, h1);
    if k == |keys| || KeyAction(index, n, sel.cancellable, keys[k]) in {Choose, Cancel} {
      LegacyStop(sel, start, keys, sizes, t0, h0, inv0, index, k, h1, t1, step, index2, inv, h, table);
    }
  }

  /** The frame painted at `frames[k]` extends the first `k` frames by one,
      and leaves its row in the normal style. */
  lemma LegacyPainted(sel: LegacySelection, t0: Table, frames: seq<int>, k: nat, sizes: seq<Painter.Size>,
                      h0: seq<Painter.Call<Widget>>, h1: seq<Painter.Call<Widget>>)
    requires k < |frames| <= |sizes| && h1 == h0 + LegacyFrames(sel, t0, frames[..k], sizes)
    ensures var t1 := Reset(t0, frames[..k], sel.normalStyle);
            && h1 + FrameCalls(true, LegacyFrame(t1, frames[k], sel.highlightStyle, sel.cancellable), sizes[k])
               == h0 + LegacyFrames(sel, t0, frames[..k + 1], sizes)
            && SetStyle(t1, frames[k], sel.normalStyle) == Reset(t0, frames[..k + 1], sel.normalStyle)
  {
    var t1 := Reset(t0, frames[..k], sel.normalStyle);
    var frame := FrameCalls(true, LegacyFrame(t1, frames[k], sel.highlightStyle, sel.cancellable), sizes[k]);
    LegacyFramesStep(sel, t0, frames, k, sizes);
    Grown(h0, LegacyFrames(sel, t0, frames[..k], sizes), frame);
  }

  /** The first `k + 1` frames are the first `k` and the frame at
      `frames[k]`, painted on the table the first `k` left behind. */
  lemma LegacyFramesStep(sel: LegacySelection, t0: Table, frames: seq<int>, k: nat, sizes: seq<Painter.Size>)
    requires k < |frames| <= |sizes|
    ensures var t1 := Reset(t0, frames[..k], sel.normalStyle);
            && LegacyFrames(sel, t0, frames[..k + 1], sizes)
               == LegacyFrames(sel, t0, frames[..k], sizes)
                  + FrameCalls(true, LegacyFrame(t1, frames[k], sel.highlightStyle, sel.cancellable), sizes[k])
            && Reset(t0, frames[..k + 1], sel.normalStyle) == SetStyle(t1, frames[k], sel.normalStyle)
  {
    assert frames[..k + 1][..k] == frames[..k];
  }

  /** Appending a frame to a history that ends in earlier frames. */
  lemma Grown(h0: seq<Painter.Call<Widget>>, frames: seq<Painter.Call<Widget>>, frame: seq<Painter.Call<Widget>>)
    ensures h0 + frames + frame == h0 + (frames + frame)
  {
  }

  /** A pass whose key stops the loop, or that found no key, ends the run
      as its session says. */
  lemma LegacyStop(sel: LegacySelection, start: int, keys: seq<string>, sizes: seq<Painter.Size>, t0: Table,
                   h0: seq<Painter.Call<Widget>>, inv0: seq<Invocation>, index: int, k: nat,
                   h1: seq<Painter.Call<Widget>>, t1: Table, step: Option<Step>, index2: int, inv: seq<Invocation>,
                   h: seq<Painter.Call<Widget>>, table: Table)
    requires sel.options != [] && k <= |keys| < |sizes|
    requires var s := Drive(start, |sel.options|, sel.cancellable, keys);
             && |s.frames| == k + 1 && s.frames[k] == index
             && (k == |keys| ==> s.end == Waiting(index))
             && (k < |keys| ==> var a := KeyAction(index, |sel.options|, sel.cancellable, keys[k]);
                                s.end == (if a == Choose then Chosen(index) else Cancelled) && a in {Choose, Cancel})
             && h1 + FrameCalls(true, LegacyFrame(t1, index, sel.highlightStyle, sel.cancellable), sizes[k])
                == h0 + LegacyFrames(sel, t0, s.frames[..k + 1], sizes)
             && SetStyle(t1, index, sel.normalStyle) == Reset(t0, s.frames[..k + 1], sel.normalStyle)
    requires LegacyPassed(sel, keys, k, sizes[k], index, h1, t1, inv0, step, index2, inv, h, table)
    ensures LegacyEnd(sel, start, keys, sizes, t0, h0, inv0, Ended(step), index2, inv, h, table)
  {
    var s := Drive(start, |sel.options|, sel.cancellable, keys);
    LegacyWhole(sel, t0, s.frames, sizes);
    StopOutcome(sel.options, sel.cancellable, sel.actionCallback, start, keys, index, k, inv0, step, index2, inv);
  }

  /** The frames up to the last are all the frames. */
  lemma LegacyWhole(sel: LegacySelection, t0: Table, frames: seq<int>, sizes: seq<Painter.Size>)
    requires frames != [] && |frames| <= |sizes|
    ensures LegacyFrames(sel, t0, frames[..|frames|], sizes) == LegacyFrames(sel, t0, frames, sizes)
    ensures Reset(t0, frames[..|frames|], sel.normalStyle) == Reset(t0, frames, sel.normalStyle)
  {
    assert frames[..|frames|] == frames;
  }

  /** The legacy row of `o` as its loops build it: the truthy name and
      description, the first key of a truthy value, then the truthy keys of
      the info. */
  method BuildLegacyRow(o: SelectionOption) returns (r: Result<Row, PyError>)
    ensures r == LegacyRow(o)
  {
    var cells: seq<PyValue> := [];
    if o.name != "" {
      cells := cells + [PyStr(o.name)];
    }
    if o.description != "" {
      cells := cells + [PyStr(o.description)];
    }
    assert cells == LegacyNameCells(o);
    if IsTruthy(o.value) {
      if !o.value.PyDict? {
        return Err(AttributeError);
      }
      cells := cells + [o.value.entries[0].0];
    }
    var keys := DictKeys(o.additionalInfo);
    if keys.Err? {
      return Err(keys.error);
    }
    ghost var fixed := cells;
    for j := 0 to |keys.value|
      invariant cells == fixed + KeyCells(keys.value[..j])
    {
      KeyCellsStep(fixed, keys.value, j);
      if IsTruthy(keys.value[j]) {
        cells := cells + [keys.value[j]];
      }
    }
    assert keys.value[..|keys.value|] == keys.value;
    return Ok(Row(cells, None));
  }

  class LegacySelection {
    const title: string
    const options: seq<SelectionOption>
    var index: int
    const highlightStyle: string
    const normalStyle: string
    const cancellable: bool
    const actionCallback: Option<ActionCallback>
    var table: Table
    /** Every call of the action callback so far, in order. */
    var invocations: seq<Invocation>

    /** The fields `Selection.__init__` sets before it builds the table. */
    constructor (title: string, options: seq<SelectionOption>, startingIndex: int, highlightStyle: string,
                 normalStyle: string, cancellable: bool, actionCallback: Option<ActionCallback>)
      ensures this.title == title && this.options == options && index == startingIndex
      ensures this.highlightStyle == highlightStyle && this.normalStyle == normalStyle
      ensures this.cancellable == cancellable && this.actionCallback == actionCallback
      ensures table == EmptyTable && invocations == []
    {
      this.title := title;
      this.options := options;
      index := startingIndex;
      this.highlightStyle := highlightStyle;
      this.normalStyle := normalStyle;
      this.cancellable := cancellable;
      this.actionCallback := actionCallback;
      table := EmptyTable;
      invocations := [];
    }

    /** `Selection(...)`: the menu with its table built, or the error
        building the table raised. */
    static method New(title: string, options: seq<SelectionOption>, startingIndex: int, highlightStyle: string,
                      normalStyle: string, cancellable: bool, actionCallback: Option<ActionCallback>)
      returns (r: Result<LegacySelection, PyError>)
      ensures LegacyTable(title, options).Err? <==> r.Err?
      ensures r.Err? ==> r.error == LegacyTable(title, options).error
      ensures r.Ok? ==> var m := r.value;
                        && fresh(m) && m.table == LegacyTable(title, options).value
                        && m.title == title && m.options == options && m.index == startingIndex
                        && m.highlightStyle == highlightStyle && m.normalStyle == normalStyle
                        && m.cancellable == cancellable && m.actionCallback == actionCallback
                        && m.invocations == []
    {
      var m := new LegacySelection(title, options, startingIndex, highlightStyle, normalStyle, cancellable,
                                   actionCallback);
      var err := m.InitializeTable();
      if err.Some? {
        return Err(err.value);
      }
      return Ok(m);
    }

    /** The legacy `initialize_table`: with options, set the title, add the
        columns of the first option and then one row per option, stopping at
        the first exception. */
    method InitializeTable() returns (err: Option<PyError>)
      requires table == EmptyTable
      modifies this
      ensures index == old(index) && invocations == old(invocations)
      ensures LegacyTable(title, options).Ok? <==> err == None
      ensures err == None ==> table == LegacyTable(title, options).value
      ensures err != None ==> err == Some(LegacyTable(title, options).error)
    {
      if options == [] {
        return None;
      }
      table := table.(title := Some(title));
      err := AddColumns(options[0]);
      if err != None {
        return;
      }
      err := AddRows();
    }

    /** The column part of the legacy `initialize_table`: a column for each
        truthy field of `item`, then the loop over its info's keys, whose
        item assignment raises on the first key. */
    method AddColumns(item: SelectionOption) returns (err: Option<PyError>)
      requires table.columns == []
      modifies this
      ensures index == old(index) && invocations == old(invocations)
      ensures LegacyColumns(item).Ok? <==> err == None
      ensures err == None ==> table == old(table).(columns := LegacyColumns(item).value)
      ensures err != None ==> err == Some(LegacyColumns(item).error)
    {
      AddFieldColumns(item);
      var keys := DictKeys(item.additionalInfo);
      if keys.Err? {
        return Some(keys.error);
      }
      var headers := [];
      for j := 0 to |keys.value|
        invariant index == old(index) && invocations == old(invocations)
        invariant table == old(table).(columns := FieldColumns(item))
        invariant TryMap(keys.value[..j], LegacyHeader) == Ok(headers)
      {
        TryMapStep(keys.value, LegacyHeader, j);
        var header := LegacyHeader(keys.value[j]);
        if header.Err? {
          TryMapStops(keys.value, LegacyHeader, j + 1);
          return Some(header.error);
        }
        headers := headers + [header.value];
      }
      assert keys.value[..|keys.value|] == keys.value;
      table := table.(columns := table.columns + headers);
      return None;
    }

    /** A column for each truthy field of `item`: Name, Description, Value. */
    method AddFieldColumns(item: SelectionOption)
      requires table.columns == []
      modifies this
      ensures index == old(index) && invocations == old(invocations)
      ensures table == old(table).(columns := FieldColumns(item))
    {
      if item.name != "" {
        table := table.(columns := table.columns + [PyStr("Name")]);
      }
      if item.description != "" {
        table := table.(columns := table.columns + [PyStr("Description")]);
      }
      if IsTruthy(item.value) {
        table := table.(columns := table.columns + [PyStr("Value")]);
      }
      assert table.columns == FieldColumns(item);
    }

    /** The row part of the legacy `initialize_table`: one row per option. */
    method AddRows() returns (err: Option<PyError>)
      requires table.rows == []
      modifies this
      ensures index == old(index) && invocations == old(invocations)
      ensures TryMap(options, LegacyRow).Ok? <==> err == None
      ensures err == None ==> table == old(table).(rows := TryMap(options, LegacyRow).value)
      ensures err != None ==> err == Some(TryMap(options, LegacyRow).error)
    {
      for i := 0 to |options|
        invariant TryMap(options[..i], LegacyRow) == Ok(table.rows)
        invariant index == old(index) && invocations == old(invocations)
        invariant table == old(table).(rows := table.rows)
      {
        TryMapStep(options, LegacyRow, i);
        var row := BuildLegacyRow(options[i]);
        if row.Err? {
          TryMapStops(options, LegacyRow, i + 1);
          return Some(row.error);
        }
        table := table.(rows := table.rows + [row.value]);
      }
      assert options[..|options|] == options;
      return None;
    }

    /** The frame part of one pass of `display`: clear the display, set the
        row at the index to the highlight style, append the table and the
        controls line, render, then set that row to the normal style. */
    method Paint(display: Painter.Display<Widget>, size: Painter.Size)
      requires display.Valid()
      modifies this, display
      ensures display.Valid()
      ensures index == old(index) && invocations == old(invocations)
      ensures table == SetStyle(old(table), index, normalStyle)
      ensures display.history
              == old(display.history) + FrameCalls(true, LegacyFrame(old(table), index, highlightStyle, cancellable), size)
    {
      ghost var h0 := display.history;
      ghost var t0 := table;
      display.Clear();
      StyleAt(highlightStyle);
      ghost var frame := [Painter.ClearCall, Painter.AppendCall(TableWidget(table)),
                          Painter.AppendCall(Markup(Controls(cancellable))), Painter.DisplayTextCall(true, size)];
      assert frame == FrameCalls(true, LegacyFrame(t0, index, highlightStyle, cancellable), size);
      var _ := display.Append(TableWidget(table));
      var _ := display.Append(Markup(Controls(cancellable)));
      var _ := display.DisplayText(true, size);
      assert display.history == h0 + frame;
      StyleAt(normalStyle);
    }

    /** The loop over the rows that gives the row at the index the style
        `style`; a table without that row is left as it was. */
    method StyleAt(style: string)
      modifies this
      ensures index == old(index) && invocations == old(invocations)
      ensures table == SetStyle(old(table), index, style)
    {
      for i := 0 to |table.rows|
        invariant index == old(index) && invocations == old(invocations)
        invariant table == if 0 <= index < i then SetStyle(old(table), index, style) else old(table)
      {
        if i == index {
          table := table.(rows := table.rows[i := table.rows[i].(style := Some(style))]);
        }
      }
    }

    /** The key handling of `display` for the key `key`: `up` and `down`
        move the index modulo the number of options; `space` and `enter`
        look the option up, call the callback once and stop with the
        option's value; `esc` stops with None in a cancellable menu; every
        other key changes nothing. */
    method HandleKey(key: string) returns (step: Step)
      requires options != []
      modifies this
      ensures table == old(table)
      ensures var a := KeyAction(old(index), |options|, cancellable, key);
              && index == (if a.MoveTo? then a.index else old(index))
              && step == StepOf(options, cancellable, old(index), key)
              && invocations == old(invocations)
                   + (if a == Choose then ChoiceInvocations(actionCallback, options, old(index)) else [])
    {
      if key == "up" {
        index := (index - 1) % |options|;
      } else if key == "down" {
        index := (index + 1) % |options|;
      } else if key in ["space", "enter"] {
        var k := PyIndex(index, |options|);
        if k.None? {
          return Fail(IndexError);
        }
        var selected := options[k.value];
        if actionCallback.Some? {
          invocations := invocations + [Call(actionCallback.value)];
        }
        return Stop(Some(selected.value));
      } else if key == "esc" && cancellable {
        return Stop(None);
      }
      return Continue;
    }

    /** One pass of the legacy loop: paint the frame, then read the key at
        `k` and handle it; `None` when the keys ran out before it. */
    method Pass(display: Painter.Display<Widget>, keys: seq<string>, k: nat, size: Painter.Size)
      returns (step: Option<Step>)
      requires options != [] && k <= |keys| && display.Valid()
      modifies this, display
      ensures display.Valid()
      ensures LegacyPassed(this, keys, k, size, old(index), old(display.history), old(table), old(invocations),
                           step, index, invocations, display.history, table)
    {
      Paint(display, size);
      if k == |keys| {
        return None;
      }
      var s := HandleKey(keys[k]);
      return Some(s);
    }

    /** `display` with the keys read from `keys`. With no options it
        returns None at once, touching nothing. Otherwise it paints a frame
        before each key and acts on the key, as the session `Drive`
        describes. */
    method Display(display: Painter.Display<Widget>, keys: seq<string>, sizes: seq<Painter.Size>) returns (r: Outcome)
      requires display.Valid() && |keys| < |sizes|
      modifies this, display
      ensures display.Valid()
      ensures options == [] ==> r == Returned(None) && display.history == old(display.history)
                                && index == old(index) && invocations == old(invocations) && table == old(table)
      ensures options != [] ==>
                LegacyEnd(this, old(index), keys, sizes, old(table), old(display.history), old(invocations),
                          r, index, invocations, display.history, table)
    {
      if options == [] {
        return Returned(None);
      }
      ghost var h0 := display.history;
      ghost var start := index;
      ghost var inv0 := invocations;
      ghost var t0 := table;
      LegacyStart(this, start, keys, sizes, t0, h0);
      var k := 0;
      while true
        invariant 0 <= k <= |keys|
        invariant invocations == inv0
        invariant LegacyTrack(this, start, keys, sizes, t0, h0, index, k, display.history, table)
        invariant display.Valid()
        decreases |keys| - k
      {
        ghost var i1 := index;
        ghost var h1 := display.history;
        ghost var t1 := table;
        var step := Pass(display, keys, k, sizes[k]);
        LegacyPass(this, start, keys, sizes, t0, h0, inv0, i1, k, h1, t1, step, index, invocations,
                   display.history, table);
        match step {
          case None =>
            return AwaitingKey;
          case Some(Continue) =>
          case Some(Stop(v)) =>
            return Returned(v);
          case Some(Fail(e)) =>
            return Raised(e);
        }
        k := k + 1;
      }
    }
  }
}
