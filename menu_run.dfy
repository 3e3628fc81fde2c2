/** The main loop shared by the numbered and the box menus of
    src/panda_util/selection.py: clear the display, then paint a frame and
    handle a key until a key stops the loop. The loop is stated against the
    session `Drive` goes through: which frames it paints, how it ends, and
    every call it makes on the display. */
module MenuRun {
  import opened Wrappers
  import opened PyObj
  import opened RichTable
  import opened Options
  import opened Navigation
  import opened Menu
  import opened NumberedSpec
  import opened BoxSpec
  import Painter

  /** The subclass a menu belongs to: the numbered menu, or the box menu
      with the table it built. */
  datatype Look = Numbered | Boxed(table: Table)

  /** What a menu appends for its frame at `index`. */
  function Frame(sel: Selection, look: Look, index: int): (r: seq<Widget>)
    ensures look == Numbered ==> |r| == |sel.options| + 3
    ensures look.Boxed? ==> |r| == 2
  {
    match look
    case Numbered =>
      NumberedFrame(sel.title, sel.options, index, sel.highlightStyle, sel.normalStyle, sel.cancellable)
    case Boxed(t) =>
      BoxFrame(Restyled(t, index, sel.highlightStyle, sel.normalStyle), sel.cancellable)
  }

  /** The display calls of the frames painted at `frames`, in order; the
      terminal size is read again for each frame, and frame `i` finds
      `sizes[i]`. */
  function LoopFrames(sel: Selection, look: Look, frames: seq<int>, sizes: seq<Painter.Size>)
    : seq<Painter.Call<Widget>>
    requires |frames| <= |sizes|
  {
    if frames == [] then []
    else LoopFrames(sel, look, frames[..|frames| - 1], sizes)
           + FrameCalls(false, Frame(sel, look, frames[|frames| - 1]), sizes[|frames| - 1])
  }

  /** The loop of a run is on track: the frames painted so far
      are the first `k` of the whole session, the menu is at the index of
      the next one, and the display received an initial clear and then
      those frames. */
  ghost predicate LoopTrack(sel: Selection, look: Look, start: int, keys: seq<string>, sizes: seq<Painter.Size>,
                            h0: seq<Painter.Call<Widget>>, index: int, k: nat, h: seq<Painter.Call<Widget>>)
    requires sel.options != []
  {
    var s := Drive(start, |sel.options|, sel.cancellable, keys);
    && |keys| < |sizes|
    && k < |s.frames| && s.frames[k] == index
    && h == h0 + [Painter.ClearCall] + LoopFrames(sel, look, s.frames[..k], sizes)
  }

  /** The loop starts on track after the initial clear. */
  lemma LoopStart(sel: Selection, look: Look, start: int, keys: seq<string>, sizes: seq<Painter.Size>,
                  h0: seq<Painter.Call<Widget>>)
    requires sel.options != [] && |keys| < |sizes|
    ensures LoopTrack(sel, look, start, keys, sizes, h0, start, 0, h0 + [Painter.ClearCall])
  {
    var s := Drive(start, |sel.options|, sel.cancellable, keys);
    assert s.frames[..0] == [];
  }

  /** A run from `start` over `keys` ended as its session says:
      its result, its last index, the callback calls it made and the
      calls it made on the display. */
  ghost predicate LoopEnd(sel: Selection, look: Look, start: int, keys: seq<string>, sizes: seq<Painter.Size>,
                          h0: seq<Painter.Call<Widget>>, inv0: seq<Invocation>, r: Outcome, index: int,
                          inv: seq<Invocation>, h: seq<Painter.Call<Widget>>)
    requires sel.options != []
  {
    var s := Drive(start, |sel.options|, sel.cancellable, keys);
    && |keys| < |sizes|
    && r == RunOutcome(sel.options, s)
    && index == LastIndex(s)
    && inv == inv0 + RunInvocations(sel.actionCallback, sel.options, s)
    && h == h0 + RunCalls(LoopFrames(sel, look, s.frames, sizes), s)
  }

  /** What one pass of the loop did, from index `index`, history `h1` and
      invocations `inv0` to `index2`, `h` and `inv`: it painted the frame
      at `index`, then, while keys remain, acted on key `k`. */
  ghost predicate LoopPassed(sel: Selection, look: Look, keys: seq<string>, k: nat, size: Painter.Size, index: int,
                             h1: seq<Painter.Call<Widget>>, inv0: seq<Invocation>, step: Option<Step>,
                             index2: int, inv: seq<Invocation>, h: seq<Painter.Call<Widget>>)
    requires sel.options != []
  {
    && k <= |keys|
    && (k == |keys| ==> step == None && index2 == index && inv == inv0)
    && (k < |keys| ==>
          var a := KeyAction(index, |sel.options|, sel.cancellable, keys[k]);
          && step == Some(StepOf(sel.options, sel.cancellable, index, keys[k]))
          && index2 == (if a.MoveTo? then a.index else index)
          && inv == inv0 + (if a == Choose then ChoiceInvocations(sel.actionCallback, sel.options, index) else []))
    && h == h1 + FrameCalls(false, Frame(sel, look, index), size)
            + (if k < |keys| && KeyAction(index, |sel.options|, sel.cancellable, keys[k]) == Choose
               then [Painter.ClearCall] else [])
  }

  /** One pass of the loop either keeps the loop on track, or ends the
      run as its session says at the index it painted last. */
  lemma {:induction false} LoopPass(sel: Selection, look: Look, start: int, keys: seq<string>,
                                    sizes: seq<Painter.Size>, h0: seq<Painter.Call<Widget>>, inv0: seq<Invocation>,
                                    index: int, k: nat, h1: seq<Painter.Call<Widget>>, step: Option<Step>,
                                    index2: int, inv: seq<Invocation>, h: seq<Painter.Call<Widget>>)
    requires sel.options != [] && k <= |keys| < |sizes|
    requires LoopTrack(sel, look, start, keys, sizes, h0, index, k, h1)
    requires LoopPassed(sel, look, keys, k, sizes[k], index, h1, inv0, step, index2, inv, h)
    ensures step == None ==> LoopEnd(sel, look, start, keys, sizes, h0, inv0, AwaitingKey, index2, inv, h)
    ensures step == Some(Continue) ==>
              k < |keys| && inv == inv0 && LoopTrack(sel, look, start, keys, sizes, h0, index2, k + 1, h)
    ensures step.Some? && step.value.Stop? ==>
              LoopEnd(sel, look, start, keys, sizes, h0, inv0, Returned(step.value.value), index2, inv, h)
    ensures step.Some? && step.value.Fail? ==>
              LoopEnd(sel, look, start, keys, sizes, h0, inv0, Raised(step.value.error), index2, inv, h)
    ensures step != Some(Continue) ==> index2 == index
  {
    var n := |sel.options|;
    var s := Drive(start, n, sel.cancellable, keys);
    DriveAt(start, n, sel.cancellable, keys, k);
    LoopPainted(sel, look, s.frames, k, sizes, h0, h1);
    if k == |keys| || KeyAction(index, n, sel.cancellable, keys[k]) in {Choose, Cancel} {
      LoopStop(sel, look, start, keys, sizes, h0, inv0, index, k, h1, step, index2, inv, h);
    }
  }

  /** The frame painted at `frames[k]` extends the first `k` frames by one. */
  lemma LoopPainted(sel: Selection, look: Look, frames: seq<int>, k: nat, sizes: seq<Painter.Size>,
                    h0: seq<Painter.Call<Widget>>, h1: seq<Painter.Call<Widget>>)
    requires k < |frames| <= |sizes| && h1 == h0 + [Painter.ClearCall] + LoopFrames(sel, look, frames[..k], sizes)
    ensures h1 + FrameCalls(false, Frame(sel, look, frames[k]), sizes[k])
            == h0 + [Painter.ClearCall] + LoopFrames(sel, look, frames[..k + 1], sizes)
  {
    var frame := FrameCalls(false, Frame(sel, look, frames[k]), sizes[k]);
    assert frames[..k + 1][..k] == frames[..k];
    assert LoopFrames(sel, look, frames[..k + 1], sizes) == LoopFrames(sel, look, frames[..k], sizes) + frame;
    Painted(h0, LoopFrames(sel, look, frames[..k], sizes), frame);
  }

  /** A pass whose key stops the loop, or that found no key, ends the run
      as its session says. */
  lemma LoopStop(sel: Selection, look: Look, start: int, keys: seq<string>, sizes: seq<Painter.Size>,
                 h0: seq<Painter.Call<Widget>>, inv0: seq<Invocation>, index: int, k: nat,
                 h1: seq<Painter.Call<Widget>>, step: Option<Step>, index2: int, inv: seq<Invocation>,
                 h: seq<Painter.Call<Widget>>)
    requires sel.options != [] && k <= |keys| < |sizes|
    requires var s := Drive(start, |sel.options|, sel.cancellable, keys);
             && |s.frames| == k + 1 && s.frames[k] == index
             && (k == |keys| ==> s.end == Waiting(index))
             && (k < |keys| ==> var a := KeyAction(index, |sel.options|, sel.cancellable, keys[k]);
                                s.end == (if a == Choose then Chosen(index) else Cancelled) && a in {Choose, Cancel})
             && h1 + FrameCalls(false, Frame(sel, look, index), sizes[k])
                == h0 + [Painter.ClearCall] + LoopFrames(sel, look, s.frames[..k + 1], sizes)
    requires LoopPassed(sel, look, keys, k, sizes[k], index, h1, inv0, step, index2, inv, h)
    ensures LoopEnd(sel, look, start, keys, sizes, h0, inv0, Ended(step), index2, inv, h)
    ensures index2 == index
  {
    var s := Drive(start, |sel.options|, sel.cancellable, keys);
    LoopWhole(sel, look, s.frames, sizes);
    RunHistory(h0, LoopFrames(sel, look, s.frames, sizes), s);
    StopOutcome(sel.options, sel.cancellable, sel.actionCallback, start, keys, index, k, inv0, step, index2, inv);
  }

  /** The frames up to the last are all the frames. */
  lemma LoopWhole(sel: Selection, look: Look, frames: seq<int>, sizes: seq<Painter.Size>)
    requires |frames| <= |sizes|
    ensures LoopFrames(sel, look, frames[..|frames|], sizes) == LoopFrames(sel, look, frames, sizes)
  {
    assert frames[..|frames|] == frames;
  }
}
