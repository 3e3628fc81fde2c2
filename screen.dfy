/** What the terminal shows while the painter of src/panda_util/display.py
    draws: the text on each row and the cursor, as each print changes them.

    Text is written one character at a time. A newline moves the cursor to
    the start of the next row; any other character, an escape sequence
    inside an item's rendering included, goes into the cell under the
    cursor. The screen is taken to be wide and tall enough for every frame:
    no line wraps and nothing scrolls. */
module Screen {
  import opened Wrappers
  import opened PyStr
  import opened Ansi
  import Painter

  /** The text on each row (a row missing from the map is blank) and the
      cursor's row and column. */
  datatype Term = Term(rows: map<nat, string>, row: nat, col: nat)

  /** The text on row `r`. */
  function Line(t: Term, r: nat): string
  {
    if r in t.rows then t.rows[r] else ""
  }

  /** `line` with the cell at column `col` set to `c`; a shorter line is
      first padded with blanks. */
  function Put(line: string, col: nat, c: char): string
  {
    if col < |line| then line[col := c] else line + seq(col - |line|, _ => ' ') + [c]
  }

  /** One character of text. The terminal's output processing turns a
      newline into a carriage return and a line feed. */
  function PutChar(t: Term, c: char): Term
  {
    if c == '\n' then t.(row := t.row + 1, col := 0)
    else t.(rows := t.rows[t.row := Put(Line(t, t.row), t.col, c)], col := t.col + 1)
  }

  /** The text `s`, one character after the other. */
  function PutText(t: Term, s: string): Term
  {
    if s == [] then t else PutChar(PutText(t, s[..|s| - 1]), s[|s| - 1])
  }

  /** The part of `s` after its last newline. */
  function LastLine(s: string): (r: string)
    ensures |r| <= |s| && r == s[|s| - |r|..]
    ensures forall i :: 0 <= i < |r| ==> r[i] != '\n'
  {
    if s == [] then ""
    else if s[|s| - 1] == '\n' then ""
    else LastLine(s[..|s| - 1]) + [s[|s| - 1]]
  }

  /** What `line` holds from column `k` on. */
  function From(line: string, k: nat): string
  {
    if k <= |line| then line[k..] else ""
  }

  /** EL: the cursor's row loses everything from the cursor on. */
  function EraseToEnd(t: Term): Term
  {
    var line := Line(t, t.row);
    t.(rows := t.rows[t.row := if t.col < |line| then line[..t.col] else line])
  }

  /** The control sequences the painter prints on their own. */
  predicate IsControl(chunk: string)
  {
    || chunk == CursorHome || chunk == ClearAndHome || chunk == EraseDisplay || chunk == EraseLine
    || chunk == NewlineErase || ParseCursorUp(chunk).Some?
  }

  /** The terminal receiving one `print` of the painter. */
  function Feed(t: Term, chunk: string): Term
  {
    if chunk == CursorHome then t.(row := 0, col := 0)
    else if chunk == ClearAndHome then Term(map[], 0, 0)
    else if chunk == EraseDisplay then t.(rows := map[])
    else if chunk == EraseLine then EraseToEnd(t)
    else if chunk == NewlineErase then EraseToEnd(t.(row := t.row + 1, col := 0))
    else match ParseCursorUp(chunk)
      case Some(n) =>
        // A parameter of 0 means the default, 1; the cursor stops at the top.
        var m := if n == 0 then 1 else n;
        t.(row := if m <= t.row then t.row - m else 0)
      case None => PutText(t, chunk)
  }

  /** The terminal receiving the prints `chunks` in order. */
  function FeedAll(t: Term, chunks: seq<string>): Term
    decreases chunks
  {
    if chunks == [] then t else FeedAll(Feed(t, chunks[0]), chunks[1..])
  }

  lemma {:induction false} FeedAllConcat(t: Term, a: seq<string>, b: seq<string>)
    ensures FeedAll(t, a + b) == FeedAll(FeedAll(t, a), b)
    decreases a
  {
    if a == [] {
      assert a + b == b;
    } else {
      assert (a + b)[1..] == a[1..] + b;
      FeedAllConcat(Feed(t, a[0]), a[1..], b);
    }
  }

  lemma {:induction false} PutTextConcat(t: Term, a: string, b: string)
    ensures PutText(t, a + b) == PutText(PutText(t, a), b)
  {
    if b == [] {
      assert a + b == a;
    } else {
      assert (a + b)[..|a + b| - 1] == a + b[..|b| - 1];
      PutTextConcat(t, a, b[..|b| - 1]);
    }
  }

  /** A character written just after `l`, over a row that held `x`. */
  lemma PutOver(l: string, x: string, ch: char)
    ensures Put(l + From(x, |l|), |l|, ch) == l + [ch] + From(x, |l| + 1)
  {
    if |l| < |x| {
      var line := l + x[|l|..];
      assert Put(line, |l|, ch) == line[|l| := ch];
      assert line[|l| := ch] == l + [ch] + x[|l| + 1..];
    } else {
      assert From(x, |l|) == [] && From(x, |l| + 1) == [];
      assert l + [] == l && seq(0, _ => ' ') == [];
    }
  }

  /** `w` is `t` after text whose last line `l` ends on row `c`: the
      cursor is just after `l`, row `c` holds `l` over what it held in `t`,
      and no row below it changes. */
  ghost predicate Wrote(w: Term, t: Term, c: nat, l: string)
  {
    && w.row == c && w.col == |l|
    && Line(w, c) == l + From(Line(t, c), |l|)
    && forall r: nat :: r > c ==> Line(w, r) == Line(t, r)
  }

  lemma WroteNewline(w: Term, t: Term, c: nat, l: string)
    requires Wrote(w, t, c, l)
    ensures Wrote(PutChar(w, '\n'), t, c + 1, "")
  {
    assert From(Line(t, c + 1), 0) == Line(t, c + 1);
  }

  lemma WroteChar(w: Term, t: Term, c: nat, l: string, ch: char)
    requires Wrote(w, t, c, l) && ch != '\n'
    ensures Wrote(PutChar(w, ch), t, c, l + [ch])
  {
    PutOver(l, Line(t, c), ch);
  }

  /** One more character after text written from the start of a row. */
  lemma PutCharStep(t: Term, w: Term, c: nat, l: string, ch: char)
    requires Wrote(w, t, c, l)
    ensures Wrote(PutChar(w, ch), t, if ch == '\n' then c + 1 else c, if ch == '\n' then "" else l + [ch])
  {
    if ch == '\n' {
      WroteNewline(w, t, c, l);
    } else {
      WroteChar(w, t, c, l, ch);
    }
  }

  /** The rows, the last line and the text after one more character. */
  lemma LastCharFacts(t: Term, s: string)
    requires s != []
    ensures var p, ch := s[..|s| - 1], s[|s| - 1];
            && PutText(t, s) == PutChar(PutText(t, p), ch)
            && Count(s, '\n') == Count(p, '\n') + (if ch == '\n' then 1 else 0)
            && LastLine(s) == if ch == '\n' then "" else LastLine(p) + [ch]
  {
    var p, ch := s[..|s| - 1], s[|s| - 1];
    assert s == p + [ch];
    CountConcat(p, [ch], '\n');
    assert [ch][1..] == [];
  }

  /** Text written from the start of a row: the cursor ends one row lower per
      newline, just after the text's last line; that row holds the last line
      over what it held before, and no row below it changes. */
  lemma {:induction false} PutTextEffect(t: Term, s: string)
    requires t.col == 0
    ensures Wrote(PutText(t, s), t, t.row + Count(s, '\n'), LastLine(s))
  {
    if s == [] {
      assert From(Line(t, t.row), 0) == Line(t, t.row);
    } else {
      var p := s[..|s| - 1];
      PutTextEffect(t, p);
      var w, c, l, ch := PutText(t, p), t.row + Count(p, '\n'), LastLine(p), s[|s| - 1];
      LastCharFacts(t, s);
      WroteAfter(t, w, c, l, ch, PutText(t, s), t.row + Count(s, '\n'), LastLine(s));
    }
  }

  /** One more character after text written from the start of a row, with
      the new cursor row and last line given by name. */
  lemma WroteAfter(t: Term, w: Term, c: nat, l: string, ch: char, w2: Term, c2: nat, l2: string)
    requires Wrote(w, t, c, l) && w2 == PutChar(w, ch)
    requires c2 == (if ch == '\n' then c + 1 else c) && l2 == (if ch == '\n' then "" else l + [ch])
    ensures Wrote(w2, t, c2, l2)
  {
    PutCharStep(t, w, c, l, ch);
  }

  /** The erase pass of `n` steps blanks the `n` rows below the cursor and
      leaves the cursor at the start of the last of them; no other row
      changes. */
  lemma {:induction false} ErasePassBlanks(t: Term, n: nat)
    requires n > 0
    decreases n
    ensures var w := FeedAll(t, ErasePass(n));
            && w.row == t.row + n && w.col == 0
            && forall r: nat :: Line(w, r) == (if t.row < r <= t.row + n then "" else Line(t, r))
  {
    var t1 := Feed(t, NewlineErase);
    assert NewlineErase[0] == '\n';
    assert t1 == EraseToEnd(t.(row := t.row + 1, col := 0));
    assert ErasePass(n) == [NewlineErase] + ErasePass(n - 1);
    if n > 1 {
      ErasePassBlanks(t1, n - 1);
    }
  }

  /** CUU by `n` rows, with at least `n` rows above the cursor. */
  lemma CursorUpFeed(t: Term, n: nat)
    requires 1 <= n <= t.row
    ensures Feed(t, CursorUp(n)) == t.(row := t.row - n)
  {
    CursorUpRoundTrip(n);
    var s := CursorUp(n);
    assert s[|s| - 1] == 'A';
    assert s != CursorHome && s != ClearAndHome && s != EraseDisplay && s != EraseLine && s != NewlineErase by {
      assert CursorHome[|CursorHome| - 1] == 'H' && ClearAndHome[|ClearAndHome| - 1] == 'H';
      assert EraseDisplay[|EraseDisplay| - 1] == 'J' && EraseLine[|EraseLine| - 1] == 'K';
      assert NewlineErase[|NewlineErase| - 1] == 'K';
    }
  }

  /** The start of a frame: cursor home, and ED after a resize. */
  function FrameHead(resized: bool): seq<string>
  {
    [CursorHome] + (if resized then [EraseDisplay] else [])
  }

  /** The frame's text, and EL after it when `lineErase`. */
  function FrameBodyChunks(output: string, lineErase: bool): seq<string>
  {
    [output] + (if lineErase then [EraseLine] else [])
  }

  /** The erase pass over the rows of a previous frame of `last` lines
      below a frame of `count` lines, and the climb back. */
  function FrameTail(last: nat, count: nat): seq<string>
  {
    if last > count then ErasePass(last - count) + [CursorUp(last - count)] else []
  }

  /** The prints of one frame: cursor home, ED after a resize, the frame's
      text, EL when `lineErase`, then the erase pass over the rows of a
      previous frame of `last` lines and the climb back. */
  function FrameChunks(resized: bool, output: string, last: nat, lineErase: bool): seq<string>
  {
    FrameHead(resized) + FrameBodyChunks(output, lineErase) + FrameTail(last, Painter.LineCount(output))
  }

  lemma FrameSplit(t: Term, resized: bool, output: string, last: nat, lineErase: bool)
    ensures FeedAll(t, FrameChunks(resized, output, last, lineErase))
            == FeedAll(FeedAll(FeedAll(t, FrameHead(resized)), FrameBodyChunks(output, lineErase)),
                       FrameTail(last, Painter.LineCount(output)))
  {
    var head, body := FrameHead(resized), FrameBodyChunks(output, lineErase);
    FeedAllConcat(t, head, body);
    FeedAllConcat(t, head + body, FrameTail(last, Painter.LineCount(output)));
  }

  /** Feeding one chunk. */
  lemma FeedOne(t: Term, chunk: string)
    ensures FeedAll(t, [chunk]) == Feed(t, chunk)
  {
    assert [chunk][1..] == [];
  }

  /** Feeding two chunks. */
  lemma FeedTwo(t: Term, a: string, b: string)
    ensures FeedAll(t, [a, b]) == Feed(Feed(t, a), b)
  {
    assert [a, b][1..] == [b];
    FeedOne(Feed(t, a), b);
  }

  /** Cursor home, and ED after a resize. */
  lemma FrameStart(t: Term, resized: bool)
    ensures var w := FeedAll(t, FrameHead(resized));
            && w.row == 0 && w.col == 0
            && forall r: nat :: Line(w, r) == if resized then "" else Line(t, r)
  {
    var home := Feed(t, CursorHome);
    assert home == t.(row := 0, col := 0);
    if resized {
      assert EraseDisplay != CursorHome && EraseDisplay != ClearAndHome by {
        assert |EraseDisplay| == 4 && |CursorHome| == 3 && |ClearAndHome| == 7;
      }
      assert [CursorHome] + [EraseDisplay] == [CursorHome, EraseDisplay];
      FeedTwo(t, CursorHome, EraseDisplay);
      assert Feed(home, EraseDisplay) == home.(rows := map[]);
      forall r: nat
        ensures Line(home.(rows := map[]), r) == ""
      {
      }
    } else {
      assert [CursorHome] + [] == [CursorHome];
      FeedOne(t, CursorHome);
    }
  }

  /** EL just after written text: the row holds the text's last line and
      nothing more. */
  lemma WroteErase(w: Term, t: Term, c: nat, l: string)
    requires Wrote(w, t, c, l)
    ensures EraseToEnd(w).row == c && Line(EraseToEnd(w), c) == l
    ensures forall r: nat :: r > c ==> Line(EraseToEnd(w), r) == Line(t, r)
  {
    assert (l + From(Line(t, c), |l|))[..|l|] == l;
  }

  /** Text that is no control sequence is written as text. */
  lemma FeedText(t: Term, output: string)
    requires !IsControl(output)
    ensures Feed(t, output) == PutText(t, output)
  {
  }

  /** EL erases the rest of the cursor's row. */
  lemma FeedEraseLine(t: Term)
    ensures Feed(t, EraseLine) == EraseToEnd(t)
  {
    assert EraseLine != CursorHome && EraseLine != ClearAndHome && EraseLine != EraseDisplay by {
      assert |EraseLine| == 3 && EraseLine[2] == 'K' && CursorHome[2] == 'H';
      assert |EraseDisplay| == 4 && |ClearAndHome| == 7;
    }
  }

  /** The frame's text from the top-left cell, then EL. */
  lemma FrameTextErased(t: Term, output: string)
    requires t.row == 0 && t.col == 0
    requires !IsControl(output)
    ensures var w := FeedAll(t, [output, EraseLine]);
            var c := Count(output, '\n');
            && w.row == c && Line(w, c) == LastLine(output)
            && forall r: nat :: r > c ==> Line(w, r) == Line(t, r)
  {
    var printed := PutText(t, output);
    FeedText(t, output);
    PutTextEffect(t, output);
    FeedTwo(t, output, EraseLine);
    FeedEraseLine(printed);
    WroteErase(printed, t, Count(output, '\n'), LastLine(output));
  }

  /** The frame's text alone from the top-left cell. */
  lemma FrameTextPlain(t: Term, output: string)
    requires t.row == 0 && t.col == 0
    requires !IsControl(output)
    ensures Wrote(FeedAll(t, [output]), t, Count(output, '\n'), LastLine(output))
  {
    FeedText(t, output);
    PutTextEffect(t, output);
    FeedOne(t, output);
  }

  /** The frame's text from the top-left cell, then EL when `lineErase`. */
  lemma FrameText(t: Term, output: string, lineErase: bool)
    requires t.row == 0 && t.col == 0
    requires !IsControl(output)
    ensures var w := FeedAll(t, FrameBodyChunks(output, lineErase));
            var c := Count(output, '\n');
            var l := LastLine(output);
            && w.row == c
            && Line(w, c) == l + (if lineErase then "" else From(Line(t, c), |l|))
            && forall r: nat :: r > c ==> Line(w, r) == Line(t, r)
  {
    if lineErase {
      assert FrameBodyChunks(output, true) == [output, EraseLine];
      FrameTextErased(t, output);
    } else {
      assert FrameBodyChunks(output, false) == [output];
      FrameTextPlain(t, output);
    }
  }

  /** The erase pass over the `n` rows below the cursor, then CUU back. */
  lemma FrameErase(t: Term, n: nat)
    requires n > 0
    ensures var w := FeedAll(t, ErasePass(n) + [CursorUp(n)]);
            && w.row == t.row
            && forall r: nat :: Line(w, r) == (if t.row < r <= t.row + n then "" else Line(t, r))
  {
    var erased := FeedAll(t, ErasePass(n));
    ErasePassBlanks(t, n);
    CursorUpFeed(erased, n);
    FeedAllConcat(t, ErasePass(n), [CursorUp(n)]);
    FeedOne(erased, CursorUp(n));
    assert forall r: nat :: Line(Feed(erased, CursorUp(n)), r) == Line(erased, r);
  }

  /** The end of a frame whose text ends on row `c`: the erase pass over
      the rows of a previous frame of `last` lines below it, and the climb
      back. */
  lemma FrameEnd(w: Term, t: Term, c: nat, top: string, resized: bool, last: nat, count: nat)
    requires count == c + 1
    requires w.row == c && Line(w, c) == top
    requires forall r: nat :: r > c ==> Line(w, r) == (if resized then "" else Line(t, r))
    requires resized ==> last == 0
    ensures var e := FeedAll(w, FrameTail(last, count));
            && e.row == c && Line(e, c) == top
            && forall r: nat :: r > c ==> Line(e, r) == (if resized || r < last then "" else Line(t, r))
  {
    if last > count {
      FrameErase(w, last - count);
    }
  }

  /** The start and the text of a frame: after cursor home (and ED after
      a resize), the text and EL when `lineErase`. */
  lemma FrameBody(t: Term, resized: bool, output: string, lineErase: bool)
    requires !IsControl(output)
    ensures var started := FeedAll(t, FrameHead(resized));
            var w := FeedAll(started, FrameBodyChunks(output, lineErase));
            var c := Count(output, '\n');
            var l := LastLine(output);
            var before := if resized then "" else Line(t, c);
            && w.row == c
            && Line(w, c) == l + (if lineErase then "" else From(before, |l|))
            && forall r: nat :: r > c ==> Line(w, r) == (if resized then "" else Line(t, r))
  {
    var started := FeedAll(t, FrameHead(resized));
    var w := FeedAll(started, FrameBodyChunks(output, lineErase));
    var c := Count(output, '\n');
    FrameStart(t, resized);
    assert forall r: nat :: Line(started, r) == if resized then "" else Line(t, r);
    FrameText(started, output, lineErase);
    forall r: nat | r > c
      ensures Line(w, r) == if resized then "" else Line(t, r)
    {
      assert Line(w, r) == Line(started, r);
    }
  }

  /** One frame on the screen `t`, after a previous frame of `last` lines
      (0 after a resize). The cursor ends on the row of the text's last
      line. Below it, every row the previous frame could have printed is
      blank and every other row is as it was. The row itself holds the last
      line, followed, unless `lineErase`, by whatever the row held beyond it. */
  lemma FrameScreen(t: Term, resized: bool, output: string, last: nat, lineErase: bool)
    requires !IsControl(output)
    requires resized ==> last == 0
    ensures var w := FeedAll(t, FrameChunks(resized, output, last, lineErase));
            var c := Count(output, '\n');
            var l := LastLine(output);
            var before := if resized then "" else Line(t, c);
            && w.row == c
            && Line(w, c) == l + (if lineErase then "" else From(before, |l|))
            && forall r: nat :: r > c ==> Line(w, r) == (if resized || r < last then "" else Line(t, r))
  {
    var c := Count(output, '\n');
    var l := LastLine(output);
    var before := if resized then "" else Line(t, c);
    var written := FeedAll(FeedAll(t, FrameHead(resized)), FrameBodyChunks(output, lineErase));
    FrameSplit(t, resized, output, last, lineErase);
    FrameBody(t, resized, output, lineErase);
    FrameEnd(written, t, c, l + (if lineErase then "" else From(before, |l|)), resized, last,
             Painter.LineCount(output));
  }

  /** The prints of the frame `Render` draws, as the source writes it. */
  lemma RenderPrints<T>(s: Painter.PainterState<T>, rich: bool, size: Painter.Size,
                        console: T -> Option<string>, toStr: T -> Option<string>)
    requires s.buffer != []
    requires Painter.Output(s.buffer, rich, console, toStr).Some?
    ensures var resized := (size.columns, size.lines) != (s.width, s.height);
            var last: nat := if resized then 0 else s.lastLineCount;
            var output := Painter.Output(s.buffer, rich, console, toStr).value;
            Painter.Render(s, rich, size, console, toStr).state.out == s.out + FrameChunks(resized, output, last, false)
  {
    Painter.FrameWrites(s, rich, size, console, toStr);
    var resized := (size.columns, size.lines) != (s.width, s.height);
    var last: nat := if resized then 0 else s.lastLineCount;
    var output := Painter.Output(s.buffer, rich, console, toStr).value;
    var r := Painter.Render(s, rich, size, console, toStr).state;
    PlainFrameChunks(resized, output, last);
    assert r.out == r.out[..|s.out|] + r.out[|s.out|..];
  }

  /** The prints of a frame without EL, spelled out. */
  lemma PlainFrameChunks(resized: bool, output: string, last: nat)
    ensures FrameChunks(resized, output, last, false)
            == [CursorHome] + (if resized then [EraseDisplay] else []) + [output]
               + FrameTail(last, Painter.LineCount(output))
  {
    assert FrameBodyChunks(output, false) == [output];
  }

  /** As written, a frame leaves the row its text ends on holding, past the
      new last line, whatever an earlier frame printed there: only the rows
      below it are erased. */
  lemma RenderKeepsRowTail<T>(s: Painter.PainterState<T>, rich: bool, size: Painter.Size,
                              console: T -> Option<string>, toStr: T -> Option<string>, t: Term)
    requires s.buffer != [] && (size.columns, size.lines) == (s.width, s.height)
    requires Painter.Output(s.buffer, rich, console, toStr).Some?
    requires !IsControl(Painter.Output(s.buffer, rich, console, toStr).value)
    ensures var output := Painter.Output(s.buffer, rich, console, toStr).value;
            var r := Painter.Render(s, rich, size, console, toStr).state;
            var c := Count(output, '\n');
            var w := FeedAll(t, r.out[|s.out|..]);
            Line(w, c) == LastLine(output) + From(Line(t, c), |LastLine(output)|)
  {
    var output := Painter.Output(s.buffer, rich, console, toStr).value;
    RenderPrints(s, rich, size, console, toStr);
    var r := Painter.Render(s, rich, size, console, toStr).state;
    assert r.out[|s.out|..] == FrameChunks(false, output, s.lastLineCount, false);
    FrameScreen(t, false, output, s.lastLineCount, false);
  }

  /** The example: a new painter (which has printed ED + CUP) at 80 x 24
      holding the items "a" and "b", rendered in rich mode with a console
      that renders an item as itself. */
  const ExampleSize := Painter.Size(80, 24)
  const ExampleStart: Painter.PainterState<string> :=
    Painter.PainterState(["a", "b"], 80, 24, 0, false, [ClearAndHome])

  function Echo(x: string): Option<string>
  {
    Some(x)
  }

  lemma ExampleCounts()
    ensures Count("a\nb\n", '\n') == 2 && Count("a\nb", '\n') == 1 && Count("a\n", '\n') == 1
  {
    CountConcat("a\nb", "\n", '\n');
    CountConcat("a\n", "b", '\n');
    CountConcat("a", "\n", '\n');
    assert "a\nb\n" == "a\nb" + "\n" && "a\nb" == "a\n" + "b" && "a\n" == "a" + "\n";
  }

  /** The first frame prints "a\nb\n" and counts three lines. */
  lemma ExampleFirstFrame()
    ensures var r := Painter.Render(ExampleStart, true, ExampleSize, Echo, Echo);
            && !r.raised && r.state.lastLineCount == 3
            && r.state.width == 80 && r.state.height == 24
            && r.state.out == [ClearAndHome] + FrameChunks(false, "a\nb\n", 0, false)
  {
    assert Painter.RichOutput(["a", "b"], Echo) == "a\nb\n" by {
      assert ["a", "b"][..1] == ["a"] && ["a"][..0] == [];
    }
    ExampleCounts();
    RenderPrints(ExampleStart, true, ExampleSize, Echo, Echo);
    Painter.FrameWrites(ExampleStart, true, ExampleSize, Echo, Echo);
  }

  /** After `display_text` has emptied the buffer and "a" is appended, the
      second frame prints "a\n", one erase step and one CUU. */
  lemma ExampleSecondFrame(first: Painter.PainterState<string>)
    requires first.lastLineCount == 3 && first.width == 80 && first.height == 24
    ensures Painter.Render(first.(buffer := ["a"]), true, ExampleSize, Echo, Echo).state.out
            == first.out + FrameChunks(false, "a\n", 3, false)
  {
    assert Painter.RichOutput(["a"], Echo) == "a\n" by {
      assert ["a"][..0] == [];
    }
    RenderPrints(first.(buffer := ["a"]), true, ExampleSize, Echo, Echo);
  }

  /** The prints of the example: the clear of the constructor, the frame
      "a\nb\n" (three lines), and, once `display_text` has emptied the
      buffer and "a" is appended, the frame "a\n" (two lines) with its erase
      pass over one row. */
  lemma ExamplePrints()
    ensures var first := Painter.Render(ExampleStart, true, ExampleSize, Echo, Echo).state;
            var second := Painter.Render(first.(buffer := ["a"]), true, ExampleSize, Echo, Echo).state;
            second.out == [ClearAndHome] + FrameChunks(false, "a\nb\n", 0, false) + FrameChunks(false, "a\n", 3, false)
  {
    ExampleFirstFrame();
    ExampleSecondFrame(Painter.Render(ExampleStart, true, ExampleSize, Echo, Echo).state);
  }

  /** "a\nb\n" written on a blank screen leaves "b" on row 1. */
  lemma TwoLinesOnBlank()
    ensures Line(PutText(Term(map[], 0, 0), "a\nb\n"), 1) == "b"
  {
    var blank := Term(map[], 0, 0);
    assert "a\nb\n" == "a\nb" + "\n";
    PutTextConcat(blank, "a\nb", "\n");
    PutTextEffect(blank, "a\nb");
    assert LastLine("a\nb") == "b" by {
      assert "a\nb"[..2] == "a\n";
    }
    ExampleCounts();
  }

  /** Feeding three chunks. */
  lemma FeedThree(t: Term, a: string, b: string, c: string)
    ensures FeedAll(t, [a, b, c]) == Feed(Feed(Feed(t, a), b), c)
  {
    assert [a, b, c][1..] == [b, c];
    FeedTwo(Feed(t, a), b, c);
  }

  /** The screen after the clear and the frame "a\nb\n" shows "b" on row 1. */
  lemma FirstExampleFrame(t: Term)
    ensures Line(FeedAll(t, [ClearAndHome] + FrameChunks(false, "a\nb\n", 0, false)), 1) == "b"
  {
    var blank := Term(map[], 0, 0);
    ExampleCounts();
    assert FrameTail(0, 3) == [];
    assert [ClearAndHome] + FrameChunks(false, "a\nb\n", 0, false) == [ClearAndHome, CursorHome, "a\nb\n"];
    FeedThree(t, ClearAndHome, CursorHome, "a\nb\n");
    assert Feed(t, ClearAndHome) == blank by {
      assert |ClearAndHome| == 7 && |CursorHome| == 3;
    }
    assert Feed(blank, CursorHome) == blank;
    assert !IsControl("a\nb\n") by {
      assert "a\nb\n"[0] == 'a';
    }
    FeedText(blank, "a\nb\n");
    TwoLinesOnBlank();
  }

  /** The screen the first frame of the example leaves, and the facts
      about the text of the second frame. */
  lemma SecondFrameFacts(t: Term)
    ensures Line(FeedAll(t, [ClearAndHome] + FrameChunks(false, "a\nb\n", 0, false)), 1) == "b"
    ensures !IsControl("a\n") && Count("a\n", '\n') == 1 && LastLine("a\n") == ""
  {
    FirstExampleFrame(t);
    assert "a\n"[0] == 'a';
    ExampleCounts();
  }

  /** As written, the second frame of the example leaves "b" on row 1. */
  lemma StaleRowAsWritten(t: Term)
    ensures var first := Painter.Render(ExampleStart, true, ExampleSize, Echo, Echo).state;
            var second := Painter.Render(first.(buffer := ["a"]), true, ExampleSize, Echo, Echo).state;
            Line(FeedAll(t, second.out), 1) == "b"
  {
    var printed := [ClearAndHome] + FrameChunks(false, "a\nb\n", 0, false);
    ExamplePrints();
    SecondFrameFacts(t);
    FeedAllConcat(t, printed, FrameChunks(false, "a\n", 3, false));
    FrameScreen(FeedAll(t, printed), false, "a\n", 3, false);
  }

  /** The corrected second frame of the example leaves row 1 blank. */
  lemma StaleRowFixed(t: Term)
    ensures var first := Painter.Render(ExampleStart, true, ExampleSize, Echo, Echo).state;
            var fixed := FixedRender(first.(buffer := ["a"]), true, ExampleSize, Echo, Echo).state;
            Line(FeedAll(t, fixed.out), 1) == ""
  {
    var first := Painter.Render(ExampleStart, true, ExampleSize, Echo, Echo).state;
    var printed := [ClearAndHome] + FrameChunks(false, "a\nb\n", 0, false);
    ExampleFirstFrame();
    assert Painter.RichOutput(["a"], Echo) == "a\n" by {
      assert ["a"][..0] == [];
    }
    FixedRenderPrints(first.(buffer := ["a"]), true, ExampleSize, Echo, Echo);
    SecondFrameFacts(t);
    FeedAllConcat(t, printed, FrameChunks(false, "a\n", 3, true));
    FrameScreen(FeedAll(t, printed), false, "a\n", 3, true);
  }

  /** The stale row: the frame "a\nb\n" and then the frame "a\n", which
      ends on row 1 and prints nothing there, leave "b" on row 1, whatever
      was on the screen before. The corrected second frame blanks it. */
  lemma StaleRowAfterShorterFrame(t: Term)
    ensures var first := Painter.Render(ExampleStart, true, ExampleSize, Echo, Echo).state;
            var second := Painter.Render(first.(buffer := ["a"]), true, ExampleSize, Echo, Echo).state;
            var fixed := FixedRender(first.(buffer := ["a"]), true, ExampleSize, Echo, Echo).state;
            && Line(FeedAll(t, second.out), 1) == "b"
            && Line(FeedAll(t, fixed.out), 1) == ""
  {
    StaleRowAsWritten(t);
    StaleRowFixed(t);
  }

  /** `_render_to_screen` corrected: EL right after the frame's text, so
      the row the text ends on loses what an earlier frame left past it.
      Everything else is as in `Render`. */
  function FixedRender<T>(s: Painter.PainterState<T>, rich: bool, size: Painter.Size,
                          console: T -> Option<string>, toStr: T -> Option<string>): Painter.Rendered<T>
  {
    if s.buffer == [] then Painter.Rendered(s, false)
    else
      var resized := (size.columns, size.lines) != (s.width, s.height);
      var last: nat := if resized then 0 else s.lastLineCount;
      var started := s.(width := size.columns, height := size.lines, lastLineCount := last,
                        out := s.out + [CursorHome] + (if resized then [EraseDisplay] else []));
      match Painter.Output(s.buffer, rich, console, toStr)
      case None => Painter.Rendered(started, true)
      case Some(output) =>
        var count := Painter.LineCount(output);
        var erase := if last > count then ErasePass(last - count) + [CursorUp(last - count)] else [];
        Painter.Rendered(started.(lastLineCount := count, out := started.out + [output, EraseLine] + erase), false)
  }

  /** The prints of the corrected frame: those of `Render` with EL after the text. */
  lemma FixedRenderPrints<T>(s: Painter.PainterState<T>, rich: bool, size: Painter.Size,
                             console: T -> Option<string>, toStr: T -> Option<string>)
    requires s.buffer != []
    requires Painter.Output(s.buffer, rich, console, toStr).Some?
    ensures var resized := (size.columns, size.lines) != (s.width, s.height);
            var last: nat := if resized then 0 else s.lastLineCount;
            var output := Painter.Output(s.buffer, rich, console, toStr).value;
            var r := FixedRender(s, rich, size, console, toStr);
            && !r.raised && r.state.lastLineCount == Painter.LineCount(output)
            && r.state.out == s.out + FrameChunks(resized, output, last, true)
  {
  }

  /** The corrected frame keeps the screen clean: when every row from the
      previous frame's line count down is blank (or the size changed), the
      row the new text ends on holds exactly its last line, and every row
      from the new line count down is blank again. So no row from the new
      frame's last row down keeps any text of an earlier frame. */
  lemma FixedRenderLeavesNoRow<T>(s: Painter.PainterState<T>, rich: bool, size: Painter.Size,
                                  console: T -> Option<string>, toStr: T -> Option<string>, t: Term)
    requires s.buffer != []
    requires Painter.Output(s.buffer, rich, console, toStr).Some?
    requires !IsControl(Painter.Output(s.buffer, rich, console, toStr).value)
    requires (size.columns, size.lines) == (s.width, s.height) ==>
               forall r: nat :: r >= s.lastLineCount ==> Line(t, r) == ""
    ensures var output := Painter.Output(s.buffer, rich, console, toStr).value;
            var r := FixedRender(s, rich, size, console, toStr);
            var w := FeedAll(t, r.state.out[|s.out|..]);
            && !r.raised && r.state.lastLineCount == Painter.LineCount(output)
            && w.row == r.state.lastLineCount - 1
            && Line(w, w.row) == LastLine(output)
            && forall row: nat :: row >= r.state.lastLineCount ==> Line(w, row) == ""
  {
    var output := Painter.Output(s.buffer, rich, console, toStr).value;
    var resized := (size.columns, size.lines) != (s.width, s.height);
    var last: nat := if resized then 0 else s.lastLineCount;
    FixedRenderPrints(s, rich, size, console, toStr);
    var r := FixedRender(s, rich, size, console, toStr).state;
    assert r.out[|s.out|..] == FrameChunks(resized, output, last, true);
    FrameScreen(t, resized, output, last, true);
  }
}
