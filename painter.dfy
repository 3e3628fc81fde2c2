/** The flicker-free painter of src/panda_util/display.py: an ordered content
    buffer painted to the terminal with cursor-home instead of a full clear,
    a full clear only when the terminal size changed, and an erase pass over
    the rows of a longer previous frame below the new frame's last row. (That
    last row itself is not erased past the new text: the Screen module shows
    the text a longer previous frame leaves there.)

    The terminal size is passed in where the source queries it, the rich
    console is the function `console` (None when rendering an item raises),
    `str(item)` is the function `toStr` (None when it raises), and standard
    output is the sequence `out` of the strings printed, one per `print`
    call. The background display loop is reduced to its "running" flag. */
module Painter {
  import opened Wrappers
  import opened PyStr
  import opened PyObj
  import opened Ansi

  /** A terminal size as `shutil.get_terminal_size()` reports it. */
  datatype Size = Size(columns: int, lines: int)

  /** What is written in place of an item whose rich rendering raised. */
  const ErrorLine: string := "ERROR OCCURRED\n"

  /** What `console.print(item)` adds to the string buffer: the rendering and
      the newline rich ends every print with, or the error line. */
  function ItemText(rendered: Option<string>): (r: string)
    ensures r != [] && r[|r| - 1] == '\n'
  {
    match rendered
    case Some(s) => s + "\n"
    case None => ErrorLine
  }

  /** The string buffer after rich mode has printed `items` in order. */
  function RichOutput<T>(items: seq<T>, console: T -> Option<string>): string
  {
    if items == [] then ""
    else RichOutput(items[..|items| - 1], console) + ItemText(console(items[|items| - 1]))
  }

  /** `[str(item) for item in items]`; None when one of the `str` calls raises. */
  function Strs<T>(items: seq<T>, toStr: T -> Option<string>): (r: Option<seq<string>>)
    ensures r.Some? ==> |r.value| == |items|
  {
    if items == [] then Some([])
    else match toStr(items[0])
      case None => None
      case Some(s) =>
        match Strs(items[1..], toStr)
        case None => None
        case Some(rest) => Some([s] + rest)
  }

  /** The text one frame prints for `items`: the rich rendering, or in plain
      mode the `str`s joined by newlines (None when a `str` raised). */
  function Output<T>(items: seq<T>, rich: bool, console: T -> Option<string>,
                     toStr: T -> Option<string>): Option<string>
  {
    if rich then Some(RichOutput(items, console))
    else match Strs(items, toStr)
      case Some(strs) => Some(Join(strs, "\n"))
      case None => None
  }

  /** `output.count('\n') + 1`. */
  function LineCount(output: string): nat
  {
    Count(output, '\n') + 1
  }

  /** The painter's state: the content buffer, the cached terminal size, the
      line count of the last frame, whether the display loop runs, and all
      that was printed. */
  datatype PainterState<T> = PainterState(buffer: seq<T>, width: int, height: int, lastLineCount: nat,
                            running: bool, out: seq<string>)

  datatype Rendered<T> = Rendered(state: PainterState<T>, raised: bool)

  /** `_render_to_screen`: one frame. */
  function Render<T>(s: PainterState<T>, rich: bool, size: Size, console: T -> Option<string>,
                     toStr: T -> Option<string>): (r: Rendered<T>)
    ensures s.buffer == [] ==> r == Rendered(s, false)
    ensures r.state.buffer == s.buffer && r.state.running == s.running
    ensures |s.out| <= |r.state.out| && r.state.out[..|s.out|] == s.out
    ensures s.buffer != [] ==> |r.state.out| > |s.out| && r.state.out[|s.out|] == CursorHome
    ensures s.buffer != [] ==> r.state.width == size.columns && r.state.height == size.lines
  {
    if s.buffer == [] then Rendered(s, false)
    else
      var resized := (size.columns, size.lines) != (s.width, s.height);
      var last: nat := if resized then 0 else s.lastLineCount;
      var started := s.(width := size.columns, height := size.lines, lastLineCount := last,
                        out := s.out + [CursorHome] + (if resized then [EraseDisplay] else []));
      match Output(s.buffer, rich, console, toStr)
      case None => Rendered(started, true)
      case Some(output) =>
        var count := LineCount(output);
        var erase := if last > count then ErasePass(last - count) + [CursorUp(last - count)] else [];
        Rendered(started.(lastLineCount := count, out := started.out + [output] + erase), false)
  }

  /** A call on the painter's public interface. */
  datatype Call<T> =
    | ClearCall
    | ClearBufferCall
    | AppendCall(item: T)
    | DisplayTextCall(rich: bool, size: Size)
    | StartLoopCall
    | StopLoopCall

  /** The state after one call. Starting a loop that already runs raises and
      changes nothing, which leaves it running all the same. */
  function Apply<T>(s: PainterState<T>, call: Call<T>, console: T -> Option<string>,
                    toStr: T -> Option<string>): PainterState<T>
  {
    match call
    case ClearCall => s.(buffer := [], lastLineCount := 0, out := s.out + [ClearAndHome])
    case ClearBufferCall => s.(buffer := [])
    case AppendCall(item) => s.(buffer := s.buffer + [item])
    case DisplayTextCall(rich, size) =>
      if s.running then s
      else
        var r := Render(s, rich, size, console, toStr);
        if r.raised then r.state else r.state.(buffer := [])
    case StartLoopCall => s.(running := true)
    case StopLoopCall => s.(running := false)
  }

  /** The state after a sequence of calls, in order. */
  function Replay<T>(s: PainterState<T>, calls: seq<Call<T>>, console: T -> Option<string>,
                     toStr: T -> Option<string>): PainterState<T>
  {
    if calls == [] then s
    else Apply(Replay(s, calls[..|calls| - 1], console, toStr), calls[|calls| - 1], console, toStr)
  }

  lemma {:induction false} ReplayConcat<T>(s: PainterState<T>, a: seq<Call<T>>, b: seq<Call<T>>,
                                           console: T -> Option<string>, toStr: T -> Option<string>)
    ensures Replay(s, a + b, console, toStr) == Replay(Replay(s, a, console, toStr), b, console, toStr)
  {
    if b == [] {
      assert a + b == a;
    } else {
      assert (a + b)[..|a + b| - 1] == a + b[..|b| - 1];
      ReplayConcat(s, a, b[..|b| - 1], console, toStr);
    }
  }

  lemma ReplayStep<T>(s: PainterState<T>, calls: seq<Call<T>>, c: Call<T>,
                      console: T -> Option<string>, toStr: T -> Option<string>)
    ensures Replay(s, calls + [c], console, toStr) == Apply(Replay(s, calls, console, toStr), c, console, toStr)
  {
    assert (calls + [c])[..|calls|] == calls;
  }

  /** The calls `display += item` for each item, in order. */
  function Appends<T>(items: seq<T>): (r: seq<Call<T>>)
    ensures |r| == |items| && forall i :: 0 <= i < |items| ==> r[i] == AppendCall(items[i])
  {
    seq(|items|, i requires 0 <= i < |items| => AppendCall(items[i]))
  }

  /** Appending items one by one puts them after the buffer's contents, in
      the order they were appended, and changes nothing else. */
  lemma {:induction false} AppendsKeepOrder<T>(s: PainterState<T>, items: seq<T>,
                                               console: T -> Option<string>, toStr: T -> Option<string>)
    ensures Replay(s, Appends(items), console, toStr) == s.(buffer := s.buffer + items)
  {
    if items != [] {
      var init := items[..|items| - 1];
      assert Appends(items)[..|items| - 1] == Appends(init);
      AppendsKeepOrder(s, init, console, toStr);
      assert s.buffer + init + [items[|items| - 1]] == s.buffer + items;
    }
  }

  /** Rich mode writes the items' texts in buffer order: the output of a
      buffer is the output of its front followed by the output of its back. */
  lemma {:induction false} RichOutputConcat<T>(a: seq<T>, b: seq<T>, console: T -> Option<string>)
    ensures RichOutput(a + b, console) == RichOutput(a, console) + RichOutput(b, console)
  {
    if b != [] {
      var init := b[..|b| - 1];
      assert (a + b)[..|a + b| - 1] == a + init;
      assert (a + b)[|a + b| - 1] == b[|b| - 1];
      RichOutputConcat(a, init, console);
    } else {
      assert a + b == a;
    }
  }

  /** Every rich print ends with a newline, so a frame of `n` items counts at
      least `n + 1` lines. */
  lemma {:induction false} RichLineCount<T>(items: seq<T>, console: T -> Option<string>)
    ensures LineCount(RichOutput(items, console)) >= |items| + 1
  {
    if items != [] {
      var init := items[..|items| - 1];
      var text := ItemText(console(items[|items| - 1]));
      RichLineCount(init, console);
      assert RichOutput(items, console) == RichOutput(init, console) + text;
      CountConcat(RichOutput(init, console), text, '\n');
      CountEndsWith(text, '\n');
    }
  }

  /** In plain mode the line count is the number of items plus the newlines
      inside their `str`s. */
  lemma PlainLineCount(strs: seq<string>)
    requires strs != []
    ensures LineCount(Join(strs, "\n")) == CountAll(strs, '\n') + |strs|
  {
    CountJoin(strs, '\n');
  }

  /** Whether the terminal would read `chunk` as a cursor movement or an erase
      step instead of text. */
  predicate IsControlChunk(chunk: string)
  {
    IsCursorMove(chunk) || chunk == NewlineErase
  }

  /** A rich frame ends with a newline, so it is never read as a control
      sequence. */
  lemma RichOutputIsText<T>(items: seq<T>, console: T -> Option<string>)
    requires items != []
    ensures !IsControlChunk(RichOutput(items, console))
  {
    var out := RichOutput(items, console);
    var text := ItemText(console(items[|items| - 1]));
    assert out[|out| - 1] == text[|text| - 1] == '\n';
    assert CursorHome[2] == 'H';
    assert ClearAndHome[|ClearAndHome| - 1] == 'H';
    assert NewlineErase[3] == 'K';
  }

  /** What one non-empty frame prints, spelled out. */
  lemma FrameWrites<T>(s: PainterState<T>, rich: bool, size: Size,
                       console: T -> Option<string>, toStr: T -> Option<string>)
    requires s.buffer != []
    requires Output(s.buffer, rich, console, toStr).Some?
    ensures var resized := (size.columns, size.lines) != (s.width, s.height);
            var last: nat := if resized then 0 else s.lastLineCount;
            var output := Output(s.buffer, rich, console, toStr).value;
            var count := LineCount(output);
            var r := Render(s, rich, size, console, toStr).state;
            && r.lastLineCount == count
            && r.out[|s.out|..] == [CursorHome] + (if resized then [EraseDisplay] else []) + [output]
                                   + (if last > count then ErasePass(last - count) + [CursorUp(last - count)] else [])
  {
  }

  /** The painter's central promise, checked against the cursor model of
      the Ansi module: after a frame the cursor is on the frame's last line
      (row `lastLineCount - 1`), and the erase pass clears exactly the rows
      from `lastLineCount` up to the previous frame's line count. The row
      the new text ends on is not among them, so what a longer previous
      frame printed there past the new text stays; the Screen module states
      that on a model of the screen's contents. After a resize the whole
      display was erased instead and no row needs the erase pass. */
  lemma FrameCursor<T>(s: PainterState<T>, rich: bool, size: Size,
                       console: T -> Option<string>, toStr: T -> Option<string>, row: nat)
    requires s.buffer != []
    requires Output(s.buffer, rich, console, toStr).Some?
    requires !IsControlChunk(Output(s.buffer, rich, console, toStr).value)
    ensures var r := Render(s, rich, size, console, toStr).state;
            var previous := if (size.columns, size.lines) != (s.width, s.height) then 0 else s.lastLineCount;
            && RowAfter(r.out[|s.out|..], row) == r.lastLineCount - 1
            && forall k: nat :: k in ErasedRows(r.out[|s.out|..], row) <==> r.lastLineCount <= k < previous
  {
    var resized := (size.columns, size.lines) != (s.width, s.height);
    FrameWrites(s, rich, size, console, toStr);
    WritesCursor(if resized then [EraseDisplay] else [],
                 Output(s.buffer, rich, console, toStr).value,
                 if resized then 0 else s.lastLineCount, row);
  }

  lemma {:induction false} WritesCursor(pre: seq<string>, output: string, last: nat, row: nat)
    requires pre == [] || pre == [EraseDisplay]
    requires !IsControlChunk(output)
    ensures var count := LineCount(output);
            var writes := [CursorHome] + pre + [output]
                          + (if last > count then ErasePass(last - count) + [CursorUp(last - count)] else []);
            && RowAfter(writes, row) == count - 1
            && forall k: nat :: k in ErasedRows(writes, row) <==> count <= k < last
  {
    var count := LineCount(output);
    var erase := if last > count then ErasePass(last - count) + [CursorUp(last - count)] else [];
    ChunkMoves(row);
    ChunkMoves(0);
    RowAfterConcat([CursorHome], pre, row);
    assert RowAfter([CursorHome], row) == 0;
    assert ErasedRows([CursorHome], row) == {};
    assert RowAfter([CursorHome] + pre, row) == 0;
    assert ErasedRows([CursorHome] + pre, row) == {};
    RowAfterConcat([CursorHome] + pre, [output], row);
    TextMoves(output, 0);
    assert RowAfter([output], 0) == count - 1;
    assert ErasedRows([output], 0) == {};
    RowAfterConcat([CursorHome] + pre + [output], erase, row);
    if last > count {
      var k := last - count;
      RowAfterConcat(ErasePass(k), [CursorUp(k)], count - 1);
      ErasePassEffect(k, count - 1);
      CursorUpMoves(k, last - 1);
      assert ErasedRows([CursorUp(k)], last - 1) == {};
    }
  }

  /** Painting the same buffer at the same size twice: the second frame is
      only cursor-home and the same text, with the same line count. */
  lemma RepaintIsSteady<T>(s: PainterState<T>, rich: bool, size: Size,
                           console: T -> Option<string>, toStr: T -> Option<string>)
    requires s.buffer != []
    requires !Render(s, rich, size, console, toStr).raised
    ensures var first := Render(s, rich, size, console, toStr).state;
            var second := Render(first, rich, size, console, toStr);
            && !second.raised
            && second.state == first.(out := first.out + [CursorHome, Output(s.buffer, rich, console, toStr).value])
  {
  }

  /** A frame at a new terminal size erases the whole display once, right
      after cursor-home, and prints no erase pass. */
  lemma ResizeClearsOnce<T>(s: PainterState<T>, rich: bool, size: Size,
                            console: T -> Option<string>, toStr: T -> Option<string>)
    requires s.buffer != []
    requires (size.columns, size.lines) != (s.width, s.height)
    requires Output(s.buffer, rich, console, toStr).Some?
    ensures var r := Render(s, rich, size, console, toStr);
            && !r.raised
            && r.state.out == s.out + [CursorHome, EraseDisplay, Output(s.buffer, rich, console, toStr).value]
            && r.state.lastLineCount == LineCount(Output(s.buffer, rich, console, toStr).value)
  {
  }

  class Display<T> {
    const console: T -> Option<string>
    const toStr: T -> Option<string>
    /** `_content_buffer` */
    var buffer: seq<T>
    var terminalWidth: int
    var terminalHeight: int
    /** `_last_line_count` */
    var lastLineCount: nat
    /** Whether the display-loop thread is alive. */
    var running: bool
    /** Everything printed to standard output, one string per `print`. */
    var out: seq<string>
    /** Every call on the public interface since construction, in order. */
    ghost var history: seq<Call<T>>
    /** The state right after construction. */
    ghost const start: PainterState<T>

    /** The painter's state is the one its calls since construction give:
        the call log determines the buffer, the cached size, the line count,
        the loop flag and everything printed. */
    ghost predicate Valid()
      reads this
    {
      State() == Replay(start, history, console, toStr)
    }

    /** The state is the replay, from `s0`, of the calls made since the
        call log was `h0`. */
    ghost predicate ReplayedSince(s0: PainterState<T>, h0: seq<Call<T>>)
      reads this
    {
      |h0| <= |history| && history[..|h0|] == h0 && State() == Replay(s0, history[|h0|..], console, toStr)
    }

    /** A valid painter whose call log has grown from `h0`, which was then
        in state `s0`, holds the replay of the new calls from `s0`. */
    lemma ShowSince(s0: PainterState<T>, h0: seq<Call<T>>)
      requires Valid() && |h0| <= |history| && history[..|h0|] == h0
      requires s0 == Replay(start, h0, console, toStr)
      ensures ReplayedSince(s0, h0)
    {
      assert history == h0 + history[|h0|..];
      ReplayConcat(start, h0, history[|h0|..], console, toStr);
    }

    function State(): PainterState<T>
      reads this
    {
      PainterState(buffer, terminalWidth, terminalHeight, lastLineCount, running, out)
    }

    /** `Display(hz)`: an empty buffer, the current terminal size, and one
        full clear printed. */
    constructor (size: Size, console: T -> Option<string>, toStr: T -> Option<string>)
      ensures State() == PainterState([], size.columns, size.lines, 0, false, [ClearAndHome])
      ensures this.console == console && this.toStr == toStr
      ensures history == [] && Valid()
    {
      this.console := console;
      this.toStr := toStr;
      buffer := [];
      terminalWidth, terminalHeight := size.columns, size.lines;
      lastLineCount := 0;
      running := false;
      out := [ClearAndHome];
      history := [];
      start := PainterState([], size.columns, size.lines, 0, false, [ClearAndHome]);
    }

    /** `clear`: clear the screen, forget the last frame, empty the buffer. */
    method Clear()
      requires Valid()
      modifies this
      ensures Valid()
      ensures State() == old(State()).(buffer := [], lastLineCount := 0, out := old(out) + [ClearAndHome])
      ensures history == old(history) + [ClearCall]
    {
      out := out + [ClearAndHome];
      lastLineCount := 0;
      buffer := [];
      history := history + [ClearCall];
      ReplayStep(start, old(history), ClearCall, console, toStr);
    }

    /** `clear_buffer`: empty the buffer and nothing else. */
    method ClearBuffer()
      requires Valid()
      modifies this
      ensures Valid()
      ensures State() == old(State()).(buffer := [])
      ensures history == old(history) + [ClearBufferCall]
    {
      buffer := [];
      history := history + [ClearBufferCall];
      ReplayStep(start, old(history), ClearBufferCall, console, toStr);
    }

    /** `_render_to_screen`. */
    method RenderToScreen(rich: bool, size: Size) returns (raised: bool)
      modifies this`out, this`terminalWidth, this`terminalHeight, this`lastLineCount
      ensures Rendered(State(), raised) == Render(old(State()), rich, size, console, toStr)
    {
      if buffer == [] {
        return false;
      }
      out := out + [CursorHome];
      if (size.columns, size.lines) != (terminalWidth, terminalHeight) {
        terminalWidth, terminalHeight := size.columns, size.lines;
        out := out + [EraseDisplay];
        lastLineCount := 0;
      }
      var output := FrameOutput(rich);
      if output.None? {
        return true;
      }
      var lineCount := Count(output.value, '\n') + 1;
      out := out + [output.value];
      if lastLineCount > lineCount {
        ErasePreviousLines(lineCount);
      }
      lastLineCount := lineCount;
      raised := false;
    }

    /** The text of one frame: in rich mode each item printed through the
        console into an emptied string buffer, an item that raises replaced by
        the error line; in plain mode the `str`s joined by newlines. */
    method FrameOutput(rich: bool) returns (output: Option<string>)
      ensures output == Output(buffer, rich, console, toStr)
    {
      if rich {
        var written := "";
        for i := 0 to |buffer|
          invariant written == RichOutput(buffer[..i], console)
        {
          assert buffer[..i + 1][..i] == buffer[..i];
          match console(buffer[i])
          case Some(text) =>
            written := written + text + "\n";
          case None =>
            written := written + ErrorLine;
        }
        assert buffer[..|buffer|] == buffer;
        output := Some(written);
      } else {
        match Strs(buffer, toStr)
        case None =>
          output := None;
        case Some(strs) =>
          output := Some(Join(strs, "\n"));
      }
    }

    /** The erase pass: one new line and EL for each line the last frame had
        beyond `lineCount`, then the cursor back up over them. */
    method ErasePreviousLines(lineCount: nat)
      requires lastLineCount > lineCount
      modifies this`out
      ensures out == old(out) + ErasePass(lastLineCount - lineCount) + [CursorUp(lastLineCount - lineCount)]
    {
      for k := lineCount to lastLineCount
        invariant out == old(out) + ErasePass(k - lineCount)
      {
        assert ErasePass(k + 1 - lineCount) == ErasePass(k - lineCount) + [NewlineErase];
        out := out + [NewlineErase];
      }
      out := out + [CursorUp(lastLineCount - lineCount)];
    }

    /** `display_text`: unless the display loop runs, paint the buffer and
        then empty it; an exception from `str` leaves the buffer as it was. */
    method DisplayText(rich: bool, size: Size) returns (raised: bool)
      requires Valid()
      modifies this
      ensures Valid()
      ensures State() == Apply(old(State()), DisplayTextCall(rich, size), console, toStr)
      ensures raised == (!old(running) && Render(old(State()), rich, size, console, toStr).raised)
      ensures history == old(history) + [DisplayTextCall(rich, size)]
    {
      if running {
        raised := false;
      } else {
        raised := RenderToScreen(rich, size);
        if !raised {
          buffer := [];
        }
      }
      history := history + [DisplayTextCall(rich, size)];
      assert State() == Apply(old(State()), DisplayTextCall(rich, size), console, toStr);
      ReplayStep(start, old(history), DisplayTextCall(rich, size), console, toStr);
    }

    /** `display += item`: append at the end; the result is the same painter. */
    method Append(item: T) returns (self: Display<T>)
      requires Valid()
      modifies this
      ensures Valid()
      ensures self == this
      ensures State() == old(State()).(buffer := old(buffer) + [item])
      ensures history == old(history) + [AppendCall(item)]
    {
      buffer := buffer + [item];
      self := this;
      history := history + [AppendCall(item)];
      ReplayStep(start, old(history), AppendCall(item), console, toStr);
    }

    /** `start_display_loop`: RuntimeError when the loop already runs. */
    method StartDisplayLoop() returns (error: Option<PyError>)
      requires Valid()
      modifies this
      ensures Valid()
      ensures old(running) ==> error == Some(RuntimeError) && State() == old(State())
      ensures !old(running) ==> error == None && State() == old(State()).(running := true)
      ensures history == old(history) + [StartLoopCall]
    {
      if running {
        error := Some(RuntimeError);
      } else {
        running := true;
        error := None;
      }
      history := history + [StartLoopCall];
      ReplayStep(start, old(history), StartLoopCall, console, toStr);
    }

    /** `stop_display_loop`: nothing to do unless the loop runs. */
    method StopDisplayLoop()
      requires Valid()
      modifies this
      ensures Valid()
      ensures State() == old(State()).(running := false)
      ensures history == old(history) + [StopLoopCall]
    {
      if running {
        running := false;
      }
      history := history + [StopLoopCall];
      ReplayStep(start, old(history), StopLoopCall, console, toStr);
    }
  }
}
