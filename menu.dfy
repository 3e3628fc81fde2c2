/** The selection menus of src/panda_util/selection.py: the shared
    `Selection` state and key handling, the numbered menu and the box
    (table) menu. A run reads its keys from a finite sequence and paints
    its frames on a `Painter.Display`. */
module Menu {
  import opened Wrappers
  import opened PyStr
  import opened PyObj
  import opened RichTable
  import opened Options
  import opened Navigation
  import Painter

  /** How a run ends: it returns a value or None, it raises, or the keys
      ran out while it waited for one more. */
  datatype Outcome = Returned(value: Option<PyValue>) | Raised(error: PyError) | AwaitingKey

  /** What one key does to the main loop: continue, stop with a value or
      None, or raise. */
  datatype Step = Continue | Stop(value: Option<PyValue>) | Fail(error: PyError)

  /** `options[index].value` with Python indexing. */
  function Selected(options: seq<SelectionOption>, index: int): (r: Result<PyValue, PyError>)
    ensures r.Err? <==> !(0 - |options| <= index < |options|)
    ensures r.Err? ==> r.error == IndexError
    ensures 0 <= index < |options| ==> r == Ok(options[index].value)
    ensures 0 - |options| <= index < 0 ==> r == Ok(options[|options| + index].value)
  {
    match PyIndex(index, |options|)
    case Some(k) => Ok(options[k].value)
    case None => Err(IndexError)
  }

  /** The callback calls made when the option at `index` is chosen: one,
      when there is a callback and the option exists. */
  function ChoiceInvocations(cb: Option<ActionCallback>, options: seq<SelectionOption>, index: int)
    : (r: seq<Invocation>)
    ensures |r| <= 1
    ensures r != [] <==> cb.Some? && Selected(options, index).Ok?
    ensures r != [] ==> r[0] == Call(cb.value)
  {
    if cb.Some? && Selected(options, index).Ok? then [Call(cb.value)] else []
  }

  /** The step a key makes, for a menu at `index`. */
  function StepOf(options: seq<SelectionOption>, cancellable: bool, index: int, key: string): (r: Step)
    requires options != []
    ensures r == Continue <==> KeyAction(index, |options|, cancellable, key).MoveTo?
                               || KeyAction(index, |options|, cancellable, key) == Ignore
    ensures r == Stop(None) <==> KeyAction(index, |options|, cancellable, key) == Cancel
    ensures KeyAction(index, |options|, cancellable, key) == Choose <==> r.Fail? || (r.Stop? && r.value.Some?)
  {
    match KeyAction(index, |options|, cancellable, key)
    case MoveTo(_) => Continue
    case Ignore => Continue
    case Cancel => Stop(None)
    case Choose =>
      match Selected(options, index)
      case Ok(v) => Stop(Some(v))
      case Err(e) => Fail(e)
  }

  /** The result of a whole run, given the session it went through. */
  function RunOutcome(options: seq<SelectionOption>, s: Session): (r: Outcome)
    ensures s.end.Waiting? <==> r == AwaitingKey
    ensures s.end == Cancelled ==> r == Returned(None)
    ensures s.end.Chosen? ==> (r.Raised? <==> Selected(options, s.end.index).Err?)
  {
    match s.end
    case Waiting(_) => AwaitingKey
    case Cancelled => Returned(None)
    case Chosen(i) =>
      match Selected(options, i)
      case Ok(v) => Returned(Some(v))
      case Err(e) => Raised(e)
  }

  /** The callback calls made during a whole run. */
  function RunInvocations(cb: Option<ActionCallback>, options: seq<SelectionOption>, s: Session)
    : (r: seq<Invocation>)
    ensures |r| <= 1
    ensures r != [] ==> s.end.Chosen? && r == ChoiceInvocations(cb, options, s.end.index)
  {
    if s.end.Chosen? then ChoiceInvocations(cb, options, s.end.index) else []
  }

  /** The calls a run makes on the display: a clear, the frames, and one
      more clear when an option is chosen. */
  function RunCalls(frameCalls: seq<Painter.Call<Widget>>, s: Session): (r: seq<Painter.Call<Widget>>)
    ensures |r| == |frameCalls| + 1 + (if s.end.Chosen? then 1 else 0)
    ensures r[0] == Painter.ClearCall
    ensures r[1..|frameCalls| + 1] == frameCalls
  {
    [Painter.ClearCall] + frameCalls + (if s.end.Chosen? then [Painter.ClearCall] else [])
  }

  /** The history a run leaves behind, written call by call, is the
      history before it followed by `RunCalls`. */
  lemma RunHistory(h0: seq<Painter.Call<Widget>>, frameCalls: seq<Painter.Call<Widget>>, s: Session)
    ensures h0 + [Painter.ClearCall] + frameCalls + (if s.end.Chosen? then [Painter.ClearCall] else [])
            == h0 + RunCalls(frameCalls, s)
  {
  }

  /** Painting one more frame after the ones so far. */
  lemma Painted(h0: seq<Painter.Call<Widget>>, frameCalls: seq<Painter.Call<Widget>>,
                frame: seq<Painter.Call<Widget>>)
    ensures h0 + [Painter.ClearCall] + frameCalls + frame == h0 + [Painter.ClearCall] + (frameCalls + frame)
  {
  }

  /** Appending the next item of `items` after the first `k`. */
  lemma AppendStep(h: seq<Painter.Call<Widget>>, items: seq<Widget>, k: nat)
    requires k < |items|
    ensures h + Painter.Appends(items[..k]) + [Painter.AppendCall(items[k])] == h + Painter.Appends(items[..k + 1])
  {
    assert Painter.Appends(items[..k + 1]) == Painter.Appends(items[..k]) + [Painter.AppendCall(items[k])];
  }

  /** A key that stops the loop ends the session there, and the run's
      outcome is the step's value or error. */
  lemma StepEnds(options: seq<SelectionOption>, cancellable: bool, index: int, key: string, frames: seq<int>)
    requires options != []
    ensures var a := KeyAction(index, |options|, cancellable, key);
            var step := StepOf(options, cancellable, index, key);
            var s := Session(frames, if a == Choose then Chosen(index) else Cancelled);
            && (step == Continue <==> a.MoveTo? || a == Ignore)
            && (step.Stop? ==> RunOutcome(options, s) == Returned(step.value))
            && (step.Fail? ==> RunOutcome(options, s) == Raised(step.error))
  {
  }

  /** The result of a run whose last pass gave `step`. */
  function Ended(step: Option<Step>): Outcome
  {
    match step
    case Some(Stop(v)) => Returned(v)
    case Some(Fail(e)) => Raised(e)
    case _ => AwaitingKey
  }

  /** The result, last index and callback calls of a run whose pass at
      `index` stopped it, or found no key. */
  lemma StopOutcome(options: seq<SelectionOption>, cancellable: bool, cb: Option<ActionCallback>, start: int,
                    keys: seq<string>, index: int, k: nat, inv0: seq<Invocation>, step: Option<Step>, index2: int,
                    inv: seq<Invocation>)
    requires options != []
    requires var s := Drive(start, |options|, cancellable, keys);
             && |s.frames| == k + 1 && s.frames[k] == index
             && (k == |keys| ==> s.end == Waiting(index))
             && (k < |keys| ==> var a := KeyAction(index, |options|, cancellable, keys[k]);
                                s.end == (if a == Choose then Chosen(index) else Cancelled) && a in {Choose, Cancel})
    requires k <= |keys|
    requires k == |keys| ==> step == None && index2 == index && inv == inv0
    requires k < |keys| ==>
               var a := KeyAction(index, |options|, cancellable, keys[k]);
               && step == Some(StepOf(options, cancellable, index, keys[k]))
               && index2 == (if a.MoveTo? then a.index else index)
               && inv == inv0 + (if a == Choose then ChoiceInvocations(cb, options, index) else [])
    ensures var s := Drive(start, |options|, cancellable, keys);
            && Ended(step) == RunOutcome(options, s)
            && index2 == LastIndex(s)
            && inv == inv0 + RunInvocations(cb, options, s)
  {
    var s := Drive(start, |options|, cancellable, keys);
    if k < |keys| {
      StepEnds(options, cancellable, index, keys[k], s.frames);
    }
  }

  /** The state a menu shares with its subclasses. */
  class Selection {
    const title: string
    const options: seq<SelectionOption>
    var index: int
    const highlightStyle: string
    const normalStyle: string
    const cancellable: bool
    const actionCallback: Option<ActionCallback>
    /** Every call of the action callback so far, in order. */
    var invocations: seq<Invocation>

    /** `Selection.__init__`: the starting index is stored unchecked. */
    constructor (title: string, options: seq<SelectionOption>, startingIndex: int, highlightStyle: string,
                 normalStyle: string, cancellable: bool, actionCallback: Option<ActionCallback>)
      ensures this.title == title && this.options == options && index == startingIndex
      ensures this.highlightStyle == highlightStyle && this.normalStyle == normalStyle
      ensures this.cancellable == cancellable && this.actionCallback == actionCallback
      ensures invocations == []
    {
      this.title := title;
      this.options := options;
      index := startingIndex;
      this.highlightStyle := highlightStyle;
      this.normalStyle := normalStyle;
      this.cancellable := cancellable;
      this.actionCallback := actionCallback;
      invocations := [];
    }

    /** `_handle_user_input` for the key `key`: `up` and `down` move the
        index modulo the number of options; `space` and `enter` clear the
        display, look the option up, call the callback once and stop with
        the option's value; `esc` stops with None in a cancellable menu;
        every other key changes nothing. */
    method HandleUserInput(display: Painter.Display<Widget>, key: string) returns (step: Step)
      requires options != [] && display.Valid()
      modifies this, display
      ensures display.Valid()
      ensures var a := KeyAction(old(index), |options|, cancellable, key);
              && index == (if a.MoveTo? then a.index else old(index))
              && step == StepOf(options, cancellable, old(index), key)
              && invocations == old(invocations)
                   + (if a == Choose then ChoiceInvocations(actionCallback, options, old(index)) else [])
              && display.history == old(display.history) + (if a == Choose then [Painter.ClearCall] else [])
    {
      if key == "up" {
        index := (index - 1) % |options|;
        return Continue;
      } else if key == "down" {
        index := (index + 1) % |options|;
        return Continue;
      } else if key in ["space", "enter"] {
        display.Clear();
        var k := PyIndex(index, |options|);
        if k.None? {
          return Fail(IndexError);
        }
        var selected := options[k.value];
        if actionCallback.Some? {
          invocations := invocations + [Call(actionCallback.value)];
        }
        return Stop(Some(selected.value));
      } else if key == "esc" && cancellable {
        return Stop(None);
      }
      return Continue;
    }
  }

}
