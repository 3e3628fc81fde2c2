/** The ECMA-48 (ISO/IEC 6429) control sequences the painter prints, and a
    small model of where a terminal's cursor ends up after them. */
module Ansi {
  import opened Wrappers
  import opened PyStr

  const Esc: char := 27 as char

  /** CUP with default parameters (ECMA-48 section 8.3.21): cursor to the
      top-left cell. */
  const CursorHome: string := [Esc, '[', 'H']

  /** ED with parameter 2 (section 8.3.39): erase the whole display; the
      cursor does not move. */
  const EraseDisplay: string := [Esc, '[', '2', 'J']

  /** EL with the default parameter 0 (section 8.3.41): erase from the cursor
      to the end of its line. */
  const EraseLine: string := [Esc, '[', 'K']

  /** What the painter prints to clear the screen: ED, then CUP. */
  const ClearAndHome: string := EraseDisplay + CursorHome

  /** One step of the painter's erase pass: a new line, then EL. */
  const NewlineErase: string := ['\n'] + EraseLine

  /** CUU (section 8.3.22) with parameter `n`: cursor up `n` lines. */
  function CursorUp(n: nat): string
  {
    [Esc, '['] + NatToString(n) + ['A']
  }

  /** Recognises a CUU sequence with an explicit parameter. */
  function ParseCursorUp(s: string): Option<nat>
  {
    if |s| >= 3 && s[0] == Esc && s[1] == '[' && s[|s| - 1] == 'A' then ParseNat(s[2..|s| - 1])
    else None
  }

  lemma CursorUpRoundTrip(n: nat)
    ensures ParseCursorUp(CursorUp(n)) == Some(n)
  {
    var s := CursorUp(n);
    assert s[2..|s| - 1] == NatToString(n);
    NatRoundTrip(n);
  }

  /** `n` copies of the erase step, as the painter's erase loop prints them. */
  function ErasePass(n: nat): (r: seq<string>)
    ensures |r| == n && forall i :: 0 <= i < n ==> r[i] == NewlineErase
  {
    seq(n, _ => NewlineErase)
  }

  /** The row (0 is the top) the cursor is on after the terminal receives
      `chunk` with the cursor on `row`. Text moves the cursor down one row per
      newline; this assumes no line is wider than the terminal, the screen
      does not scroll, and text holds no cursor-movement sequence. */
  function RowAfterChunk(chunk: string, row: nat): nat
  {
    if chunk == CursorHome || chunk == ClearAndHome then 0
    else match ParseCursorUp(chunk)
      case Some(n) =>
        // A parameter of 0 means the default, 1; the cursor stops at the top.
        var m := if n == 0 then 1 else n;
        if m <= row then row - m else 0
      case None => row + Count(chunk, '\n')
  }

  /** Whether `chunk` is read as CUP or CUU rather than as text. */
  predicate IsCursorMove(chunk: string)
  {
    chunk == CursorHome || chunk == ClearAndHome || ParseCursorUp(chunk).Some?
  }

  function RowAfter(chunks: seq<string>, row: nat): nat
  {
    if chunks == [] then row else RowAfter(chunks[1..], RowAfterChunk(chunks[0], row))
  }

  /** The rows cleared by erase steps among `chunks`, each being the row the
      step's newline moves to. */
  function ErasedRows(chunks: seq<string>, row: nat): set<nat>
  {
    if chunks == [] then {}
    else
      (if chunks[0] == NewlineErase then {row + 1} else {})
      + ErasedRows(chunks[1..], RowAfterChunk(chunks[0], row))
  }

  lemma {:induction false} RowAfterConcat(a: seq<string>, b: seq<string>, row: nat)
    ensures RowAfter(a + b, row) == RowAfter(b, RowAfter(a, row))
    ensures ErasedRows(a + b, row) == ErasedRows(a, row) + ErasedRows(b, RowAfter(a, row))
  {
    if a == [] {
      assert a + b == b;
    } else {
      assert (a + b)[0] == a[0];
      assert (a + b)[1..] == a[1..] + b;
      RowAfterConcat(a[1..], b, RowAfterChunk(a[0], row));
    }
  }

  lemma NewlineEraseMovesDown(row: nat)
    ensures RowAfterChunk(NewlineErase, row) == row + 1
  {
    assert NewlineErase[1..] == EraseLine;
    CountAbsent(EraseLine, '\n');
  }

  /** `n` erase steps from row `row` move the cursor `n` rows down and clear
      exactly the `n` rows below `row`. */
  lemma {:induction false} ErasePassEffect(n: nat, row: nat)
    ensures RowAfter(ErasePass(n), row) == row + n
    ensures forall r: nat :: r in ErasedRows(ErasePass(n), row) <==> row < r <= row + n
  {
    if n > 0 {
      assert ErasePass(n) == [NewlineErase] + ErasePass(n - 1);
      NewlineEraseMovesDown(row);
      ErasePassEffect(n - 1, row + 1);
      assert ErasedRows(ErasePass(n), row) == {row + 1} + ErasedRows(ErasePass(n - 1), row + 1);
    }
  }

  /** Where each sequence the painter prints leaves the cursor. */
  lemma ChunkMoves(row: nat)
    ensures RowAfterChunk(CursorHome, row) == 0 && CursorHome != NewlineErase
    ensures RowAfterChunk(EraseDisplay, row) == row && EraseDisplay != NewlineErase
    ensures !IsCursorMove(NewlineErase)
  {
    assert EraseDisplay[|EraseDisplay| - 1] == 'J';
    assert NewlineErase[|NewlineErase| - 1] == 'K';
    CountAbsent(EraseDisplay, '\n');
  }

  lemma CursorUpMoves(n: nat, row: nat)
    requires 1 <= n <= row
    ensures RowAfterChunk(CursorUp(n), row) == row - n
    ensures CursorUp(n) != NewlineErase
  {
    var s := CursorUp(n);
    assert s[|s| - 1] == 'A' && s[0] == Esc;
    CursorUpRoundTrip(n);
  }

  lemma TextMoves(text: string, row: nat)
    requires !IsCursorMove(text)
    ensures RowAfterChunk(text, row) == row + Count(text, '\n')
  {
  }
}
