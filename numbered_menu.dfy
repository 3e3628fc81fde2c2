/** The numbered menu of src/panda_util/selection.py. */
module NumberedMenu {
  import opened Wrappers
  import opened PyStr
  import opened PyObj
  import opened RichTable
  import opened Options
  import opened Navigation
  import opened Menu
  import Painter
  import opened NumberedSpec
  import opened MenuRun

  class NumberedSelection {
    const base: Selection

    constructor (title: string, options: seq<SelectionOption>, startingIndex: int, highlightStyle: string,
                 normalStyle: string, cancellable: bool, actionCallback: Option<ActionCallback>)
      ensures fresh(base)
      ensures base.title == title && base.options == options && base.index == startingIndex
      ensures base.highlightStyle == highlightStyle && base.normalStyle == normalStyle
      ensures base.cancellable == cancellable && base.actionCallback == actionCallback
      ensures base.invocations == []
    {
      base := new Selection(title, options, startingIndex, highlightStyle, normalStyle, cancellable,
                            actionCallback);
    }

    /** The body of one pass of `run` up to the key: clear the buffer,
        append the title, each option's line and the controls, and render. */
    method Paint(display: Painter.Display<Widget>, size: Painter.Size)
      requires display.Valid()
      modifies display
      ensures display.Valid()
      ensures display.history
              == old(display.history)
                 + FrameCalls(false, NumberedFrame(base.title, base.options, base.index, base.highlightStyle,
                                                   base.normalStyle, base.cancellable), size)
    {
      ghost var frame := NumberedFrame(base.title, base.options, base.index, base.highlightStyle,
                                       base.normalStyle, base.cancellable);
      ghost var h0 := display.history;
      display.ClearBuffer();
      var _ := display.Append(Markup("[bold]" + base.title + "[/bold]"));
      assert [Painter.AppendCall(frame[0])] == Painter.Appends(frame[..1]);
      for i := 0 to |base.options|
        invariant display.history == h0 + [Painter.ClearBufferCall] + Painter.Appends(frame[..i + 1])
        invariant display.Valid()
      {
        var style := if i == base.index then base.highlightStyle else base.normalStyle;
        var _ := display.Append(Markup(OptionLine(i, base.options[i], style)));
        AppendStep(h0 + [Painter.ClearBufferCall], frame, i + 1);
      }
      var _ := display.Append(Markup(""));
      AppendStep(h0 + [Painter.ClearBufferCall], frame, |base.options| + 1);
      var _ := display.Append(Markup(Controls(base.cancellable)));
      AppendStep(h0 + [Painter.ClearBufferCall], frame, |base.options| + 2);
      var _ := display.DisplayText(true, size);
      assert frame[..|frame|] == frame;
      Assoc(h0, [Painter.ClearBufferCall], Painter.Appends(frame), [Painter.DisplayTextCall(true, size)]);
    }

    /** One pass of `run`'s loop: paint the frame, then read the key at
        `k` and handle it; `None` when the keys ran out before it. */
    method Pass(display: Painter.Display<Widget>, keys: seq<string>, k: nat, size: Painter.Size)
      returns (step: Option<Step>)
      requires base.options != [] && k <= |keys| && display.Valid()
      modifies base, display
      ensures display.Valid()
      ensures LoopPassed(base, Numbered, keys, k, size, old(base.index), old(display.history), old(base.invocations),
                             step, base.index, base.invocations, display.history)
    {
      Paint(display, size);
      if k == |keys| {
        return None;
      }
      var s := base.HandleUserInput(display, keys[k]);
      return Some(s);
    }

    /** `run` with the keys read from `keys`. With no options it returns
        None at once, touching nothing. Otherwise it clears the display,
        then paints a frame before each key and acts on the key, as the
        session `Drive` describes. */
    method Run(display: Painter.Display<Widget>, keys: seq<string>, sizes: seq<Painter.Size>) returns (r: Outcome)
      requires display.Valid() && |keys| < |sizes|
      modifies base, display
      ensures display.Valid()
      ensures base.options == [] ==> r == Returned(None) && display.history == old(display.history)
                                     && base.index == old(base.index) && base.invocations == old(base.invocations)
      ensures base.options != [] ==>
                LoopEnd(base, Numbered, old(base.index), keys, sizes, old(display.history), old(base.invocations),
                            r, base.index, base.invocations, display.history)
    {
      if base.options == [] {
        return Returned(None);
      }
      ghost var h0 := display.history;
      ghost var start := base.index;
      ghost var inv0 := base.invocations;
      display.Clear();
      LoopStart(base, Numbered, start, keys, sizes, h0);
      var k := 0;
      while true
        invariant 0 <= k <= |keys|
        invariant base.invocations == inv0
        invariant LoopTrack(base, Numbered, start, keys, sizes, h0, base.index, k, display.history)
        invariant display.Valid()
        decreases |keys| - k
      {
        ghost var index := base.index;
        ghost var h1 := display.history;
        var step := Pass(display, keys, k, sizes[k]);
        LoopPass(base, Numbered, start, keys, sizes, h0, inv0, index, k, h1, step, base.index, base.invocations,
                     display.history);
        match step {
          case None =>
            return AwaitingKey;
          case Some(Continue) =>
          case Some(Stop(v)) =>
            return Returned(v);
          case Some(Fail(e)) =>
            return Raised(e);
        }
        k := k + 1;
      }
    }
  }
}
