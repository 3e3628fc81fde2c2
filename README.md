# Panda_Util in Dafny

A Dafny model of the terminal utilities of Panda_Util. It covers five parts:

- **Incremental painter** (`src/panda_util/display.py`). A content buffer is painted over the previous frame in place: cursor-home, a full erase only when the terminal was resized, the new text, and an erase pass over the rows of a longer previous frame below the row the new text ends on. That row itself is not erased past the new text (see Findings).
- **Simple painter** (`display.py`). It clears the screen and prints each queued item, with `ERROR OCCURRED` in place of an item that fails.
- **Selection menus** (`src/panda_util/selection.py`). These are the numbered menu and the box (table) menu. They share one key-driven state machine and one main loop.
- **Legacy menu** (`selection.py`, the same text as `src/selection.py`). It is modelled as written, including the two ways its `initialize_table` raises.
- **Tile grid and vector** (`src/panda_util/tilemap.py`, `src/panda_util/types/vector.py`).

How the model is organised:

- **The painter** is a class, `Painter.Display`. Each method's new state is stated through the pure functions `Render` (one frame) and `Apply` (one call). The ghost field `history` records every call on the public interface. The escape sequences are those of ECMA-48 (ISO/IEC 6429): CUP (section 8.3.21), CUU (8.3.22), ED (8.3.39) and EL (8.3.41). The module `Ansi` interprets them as cursor movements. This gives the painter an independent partner: after a frame the cursor sits on the frame's last line, and the erase pass clears exactly the rows from the new line count up to the previous one (`Painter.FrameCursor`). The row the new text ends on is not among them. The module `Screen` models what the terminal shows, row by row. On it, a frame after a longer one is proved to leave the old text on that row (`Screen.StaleRowAfterShorterFrame`). A corrected frame prints EL (erase in line) after the text. It is proved to leave every row from its last row down showing only the new text (`Screen.FixedRenderLeavesNoRow`).
- **The painter's invariant** is `Painter.Display.Valid()`. It says the painter's state is the replay of its call log from the state right after construction (the ghost constant `start`). The constructor establishes it and every method keeps it. Every menu method that draws on a display requires and keeps it too. So after any menu call, the display's buffer, line count, cached size and everything printed are those its calls give. `Painter.Display.ShowSince` gives the state reached by the calls made since any earlier point.
- **Inputs from the environment** are parameters. The terminal size is a `Size` argument. The rich renderer is a function `T -> Option<string>`, where `None` means it raised, and so is `str`. The keys `keyboard.read_key` would return are a sequence. A run that uses up the keys ends as `AwaitingKey`.
- **Menu runs** are specified by the calls they make on the display. They are compared with the session `Navigation.Drive`, which gives the index of every painted frame and how the run ended. The `Menu` module derives the run's result and callback calls from that session.
- **Python semantics** are written out where the code depends on them:
  - truthiness of `None`, `""` and `{}`;
  - negative list indices and `IndexError`;
  - `%` with a positive divisor, which in Python has the sign of the divisor (Dafny's Euclidean `%` agrees there);
  - loops that stop at the first exception (`PyObj.TryMap`).
- **A failing `str` propagates.** In plain mode `_render_to_screen` calls `str(item)` outside any `try` (src/panda_util/display.py:86). So an exception from `str` leaves `display_text` before its `self._content_buffer.clear()` (src/panda_util/display.py:119-123), and the buffer is kept. The model raises there (`Painter.Display.DisplayText`).

## Model

| member | source | states |
|---|---|---|
| Ansi.CursorUpRoundTrip | src/panda_util/display.py:101 | the CUU sequence printed for `n` lines is read back as a move of `n` lines |
| Ansi.ErasePass | src/panda_util/display.py:97-98 | the erase loop prints exactly `n` copies of new line + EL |
| Ansi.ChunkMoves | src/panda_util/display.py:61-67 | CUP puts the cursor on row 0; ED leaves the cursor where it is; the erase step is no cursor move |
| Ansi.CursorUpMoves | src/panda_util/display.py:101 | CUU with `n` moves the cursor up `n` rows |
| Ansi.NewlineEraseMovesDown | src/panda_util/display.py:98 | one erase step moves the cursor one row down |
| Ansi.ErasePassEffect | src/panda_util/display.py:97-98 | `n` erase steps move the cursor `n` rows down and clear exactly the `n` rows below the start |
| Ansi.TextMoves | src/panda_util/display.py:92 | printed text moves the cursor down once per new line it holds |
| Ansi.RowAfterConcat | src/panda_util/display.py:92-101 | the cursor row and the erased rows compose over consecutive prints |
| Screen.PutTextEffect | src/panda_util/display.py:92 | text printed from the start of a row ends one row lower per new line, just after its last line; that row holds the last line over its old contents, and no row below changes |
| Screen.ErasePassBlanks | src/panda_util/display.py:97-98 | `n` erase steps blank exactly the `n` rows below the cursor and end at the start of the last of them |
| Screen.CursorUpFeed | src/panda_util/display.py:101 | CUU of `n`, from row `n` or lower, moves the cursor `n` rows up, keeps its column and changes no row |
| Screen.FrameScreen | src/panda_util/display.py:61-101 | the screen after a frame: the cursor on the text's last row; that row holds the last line, followed by its old tail unless EL was printed; rows below are blank up to the previous line count (all of them after a resize), and unchanged beyond |
| Screen.RenderPrints | src/panda_util/display.py:61-101 | what `Render` prints is the frame's chunks: CUP, ED when resized, the text, then the erase pass |
| Screen.RenderKeepsRowTail | src/panda_util/display.py:89-98 | as written, the row a frame's text ends on keeps, past the new text, what was there before |
| Screen.StaleRowAfterShorterFrame | src/panda_util/display.py:89-98 | worked example: rich frames "a","b" then "a" leave "b" on row 1 as written, and a blank row 1 with the corrected frame |
| Screen.FixedRenderPrints | src/panda_util/display.py:61-104 | the corrected frame prints EL right after the text and is otherwise `Render`'s frame |
| Screen.FixedRenderLeavesNoRow | src/panda_util/display.py:61-104 | with the corrected frame, when the rows from the previous line count down were blank (or the size changed), the cursor ends on the frame's last row, that row holds exactly the last line, and every row from the new line count down is blank |
| Painter.ItemText | src/panda_util/display.py:77-81 | each item's share of a rich frame ends in a new line; a failing item gives `ERROR OCCURRED\n` |
| Painter.Strs | src/panda_util/display.py:86 | plain mode converts every item with `str`, one string per item |
| Painter.Render | src/panda_util/display.py:51-105 | an empty buffer prints nothing and changes nothing; otherwise the frame starts with cursor-home, records the new size, keeps the buffer and the loop flag, and only appends to the output |
| Painter.FrameWrites | src/panda_util/display.py:61-104 | a frame prints CUP, then ED exactly when the size changed, then the text, then exactly `last - count` erase steps and one CUU when the previous frame was longer, and nothing more; the new line count is stored |
| Painter.FrameCursor | src/panda_util/display.py:61-104 | after a frame the cursor is on the frame's last line, and the rows erased are exactly those from the new line count up to the previous frame's line count; the frame's last row is not erased |
| Painter.WritesCursor | src/panda_util/display.py:92-101 | the cursor effect of the prints of one frame, for any text that is not itself a control sequence |
| Painter.RichOutputIsText | src/panda_util/display.py:77-83 | a rich frame ends in a new line, so it is never read as a control sequence |
| Painter.RichLineCount | src/panda_util/display.py:89 | a rich frame of `n` items counts at least `n + 1` lines, one more than it prints |
| Painter.PlainLineCount | src/panda_util/display.py:86-89 | a plain frame counts the items plus the new lines inside them |
| Painter.RichOutputConcat | src/panda_util/display.py:77-83 | rich mode writes the items' texts in buffer order |
| Painter.RepaintIsSteady | src/panda_util/display.py:104 | painting the same buffer at the same size again prints only cursor-home and the same text and keeps the line count |
| Painter.ResizeClearsOnce | src/panda_util/display.py:64-68 | a resized frame erases the display once after cursor-home, resets the count and prints no erase pass |
| Painter.ReplayConcat | src/panda_util/display.py:39-179 | replaying two call sequences one after the other is replaying their concatenation |
| Painter.ReplayStep | src/panda_util/display.py:39-179 | replaying one more call applies it to the state so far |
| Painter.Appends | src/panda_util/display.py:168-179 | the calls `display += item` for each item, one per item, in order |
| Painter.AppendsKeepOrder | src/panda_util/display.py:177-178 | appending items one by one puts them after the buffer's contents, in order |
| Painter.Display.constructor | src/panda_util/display.py:14-37 | an empty buffer, the current size cached, a line count of 0, no loop, and ED + CUP printed once; an empty call log, so the invariant holds |
| Painter.Display.ShowSince | src/panda_util/display.py:39-179 | on a valid painter, the state is the replay from any earlier state of the calls made since then |
| Painter.Display.Clear | src/panda_util/display.py:39-44 | prints ED + CUP, zeroes the line count, empties the buffer and keeps the size and loop flag; keeps the invariant, the call logged |
| Painter.Display.ClearBuffer | src/panda_util/display.py:46-49 | empties the buffer and nothing else; keeps the invariant, the call logged |
| Painter.Display.RenderToScreen | src/panda_util/display.py:51-105 | the new state and the raised flag are those `Render` gives |
| Painter.Display.FrameOutput | src/panda_util/display.py:71-86 | the text of a frame: the rich texts in order with the error line for failing items, or the `str`s joined by new lines |
| Painter.Display.ErasePreviousLines | src/panda_util/display.py:95-101 | prints exactly `last - count` erase steps and then one CUU of `last - count` |
| Painter.Display.DisplayText | src/panda_util/display.py:107-123 | does nothing while the loop runs; otherwise paints one frame and then empties the buffer; keeps the invariant, the call logged |
| Painter.Display.Append | src/panda_util/display.py:168-179 | appends the item at the end of the buffer and returns the same painter; keeps the invariant, the call logged |
| Painter.Display.StartDisplayLoop | src/panda_util/display.py:125-137 | raises RuntimeError and changes nothing when the loop runs; otherwise sets the loop running; keeps the invariant, the call logged |
| Painter.Display.StopDisplayLoop | src/panda_util/display.py:139-146 | leaves the loop stopped, whether or not it was running; keeps the invariant, the call logged |
| SimpleDisplay.LinesAt | display.py:28-36 | one line per item, in item order: the item's text, or `ERROR OCCURRED` when printing it raised |
| SimpleDisplay.LinesArePrinted | display.py:27-36 | the screen is cleared only before the first item, never between items |
| SimpleDisplay.Display.constructor | display.py:9-11 | a new display has no items |
| SimpleDisplay.Display.Clear | display.py:13-15 | clears the screen and keeps the items |
| SimpleDisplay.Display.DisplayText | display.py:17-37 | clears the screen, prints the lines of all items in order, then empties the item list |
| SimpleDisplay.Display.Append | display.py:39-49 | appends the item at the end and returns the same display |
| Options.NewOption | src/panda_util/selection.py:41-57 | name and description are kept; a None value becomes the name; falsy additional info becomes `{}` |
| Options.NameOnlyOption | selection.py:41-57 | worked example, not a general property: an option given only a name has that name as its value and empty additional info |
| Options.Call | src/panda_util/selection.py:23-35 | the action is called with the caller first exactly when `pass_caller` is set, then the stored arguments in order |
| Options.Plains | src/panda_util/selection.py:35 | the stored arguments are passed in order |
| PyObj.PyIndex | src/panda_util/selection.py:127 | list indexing accepts `-n <= i < n`, maps negative indices to `i + n`, and otherwise raises |
| PyObj.TryMap | src/panda_util/selection.py:182-193 | a loop that stops at the first raising element keeps one result per element when it finishes |
| PyObj.TryMapStep | src/panda_util/selection.py:182-193 | one more turn of such a loop raises what the element raises, or adds its result |
| PyObj.TryMapStops | src/panda_util/selection.py:182-193 | once the loop has raised on a prefix, the whole loop raises the same |
| PyObj.TryMapOk | src/panda_util/selection.py:182-193 | the loop finishes exactly when no element raises, and then holds every element's result |
| PyObj.TryMapError | src/panda_util/selection.py:182-193 | a loop whose elements can only raise one error raises that error |
| PyObj.Keys | selection.py:120 | `list(d.keys())` holds the keys in order |
| PyObj.Values | src/panda_util/selection.py:191 | `d.values()` holds the values in order |
| PyStr.CountJoin | src/panda_util/display.py:86-89 | joining with a new line adds one new line per gap |
| PyStr.CountConcat | src/panda_util/display.py:89 | counting new lines is additive over concatenation |
| PyStr.CountEndsWith | src/panda_util/display.py:81-89 | a text ending in a new line counts at least one |
| PyStr.CountAbsent | src/panda_util/display.py:89 | a text without new lines counts none |
| PyStr.NatToString | src/panda_util/selection.py:282 | `str(n)` is a non-empty run of decimal digits with no leading zero |
| PyStr.NatRoundTrip | src/panda_util/selection.py:282 | reading back `str(n)` gives `n` |
| PyStr.NatToStringValue | src/panda_util/selection.py:282 | the digits of `str(n)` have the value `n` |
| PyStr.IntToString | src/panda_util/types/vector.py:7-8 | `str(i)` has a leading minus exactly when `i` is negative, then digits |
| PyStr.IntRoundTrip | src/panda_util/types/vector.py:7-8 | reading back `str(i)` gives `i` |
| PyStr.DigitPrefix | src/panda_util/selection.py:282 | the leading digits of a text are a prefix of it |
| PyStr.DigitPrefixOf | src/panda_util/selection.py:282 | digits followed by a non-digit have exactly those digits as prefix |
| RichTable.Styles | src/panda_util/selection.py:217-218 | the rows' styles, one per row, in row order |
| RichTable.SetStyle | selection.py:143-145 | only row `index` gets the style, when it exists; cells, columns, title and every other row are kept |
| Navigation.KeyAction | src/panda_util/selection.py:104-138 | `up` and `down` move to `(index ∓ 1) % n`, always in range; `space`/`enter` choose; `esc` cancels exactly when cancellable; every other key is ignored |
| Navigation.UpUndoesDown | src/panda_util/selection.py:119-124 | from a valid index, `up` undoes `down` and `down` undoes `up` |
| Navigation.Drive | src/panda_util/selection.py:212-239 | the loop paints a frame at the starting index, then one per key that continues; a chosen index is the last painted; a run out of keys has painted one frame per key plus one |
| Navigation.DriveStaysInRange | src/panda_util/selection.py:119-124 | every painted index is the starting one or in `[0, n)` |
| Navigation.DriveAt | src/panda_util/selection.py:212-239 | after frame `k`, key `k` paints the next frame at the index it moves to (or the same index for an ignored key), or ends the session there with the choice or the cancel; with no key left the session waits at frame `k` |
| Navigation.DownWalk | src/panda_util/selection.py:122-124 | `k` presses of `down` paint the frames `index, index + 1, …` modulo `n` |
| Navigation.DownCycle | src/panda_util/selection.py:122-124 | `n` presses of `down` return to the starting index |
| Navigation.ChooseThird | src/panda_util/selection.py:119-134 | worked example, not a general property: three options, `down`, `down`, `enter` paint frames 0, 1, 2 and choose option 2 |
| Navigation.EscapeOnlyCancels | src/panda_util/selection.py:135-138 | `esc` ends a cancellable menu and is ignored by any other |
| Navigation.Controls | src/panda_util/selection.py:224-228 | the controls line is Navigate, Cancel when cancellable, and Select, joined by ` \| ` |
| Navigation.ControlsOfferCancel | src/panda_util/selection.py:289-293 | the controls line contains `[Esc] Cancel` exactly when the menu is cancellable |
| Navigation.FrameCalls | src/panda_util/selection.py:214-231 | one frame's display calls: a clear (full for the legacy menu, buffer-only otherwise), one append per widget in order, and one `display_text` |
| Menu.Selected | src/panda_util/selection.py:127 | `options[index].value` with Python indexing: IndexError exactly when the index is out of range |
| Menu.ChoiceInvocations | src/panda_util/selection.py:125-134 | choosing calls the callback once when there is one and the lookup succeeds, else never |
| Menu.StepOf | src/panda_util/selection.py:104-138 | a move continues; cancel stops with None; a choice stops with the value or raises IndexError |
| Menu.RunOutcome | src/panda_util/selection.py:237-239 | a run awaits a key exactly when its keys ran out; cancel returns None; a choice raises exactly when the lookup fails |
| Menu.RunInvocations | src/panda_util/selection.py:125-134 | a run calls the callback at most once, and only for the option it chose |
| Menu.RunCalls | src/panda_util/selection.py:209-239 | a run's display calls: one clear, the frames, and one more clear when an option was chosen |
| Menu.StepEnds | src/panda_util/selection.py:237-239 | a key that stops the loop ends the session at that frame |
| Menu.StopOutcome | src/panda_util/selection.py:237-239 | the pass that stops the loop gives the run's result, last index and callback calls |
| Menu.Selection.constructor | src/panda_util/selection.py:71-91 | the fields are stored as given, the starting index unchecked, no callback called |
| Menu.Selection.HandleUserInput | src/panda_util/selection.py:104-138 | moves the index modulo `n`; on a choice clears the display, calls the callback once and stops with the value; `esc` stops a cancellable menu; other keys change nothing; keeps the display valid, so the display's new state is the replay of these calls |
| MenuRun.Frame | src/panda_util/selection.py:221-228 | a numbered frame appends one line per option plus three; a box frame appends the table and the controls |
| MenuRun.LoopPass | src/panda_util/selection.py:212-239 | one pass either keeps the loop on track with one more frame, or ends the run as the session says |
| MenuRun.LoopPainted | src/panda_util/selection.py:214-231 | the frame painted at `frames[k]` extends the first `k` frames by one |
| MenuRun.LoopStop | src/panda_util/selection.py:237-239 | a pass that stops the loop, or finds no key, ends the run as the session says |
| NumberedSpec.OptionNumber | src/panda_util/selection.py:282 | the number at the head of option `i`'s text is `i + 1` |
| NumberedSpec.OptionTextsDiffer | src/panda_util/selection.py:280-285 | options at different positions never share a text, whatever their names |
| NumberedSpec.NumberedFrame | src/panda_util/selection.py:276-293 | the title in bold, then one line `i+1. name[ - description]` per option in the highlight style exactly at the index, then an empty line, then the controls |
| NumberedMenu.NumberedSelection.constructor | src/panda_util/selection.py:245-253 | the base menu's fields, as given |
| NumberedMenu.NumberedSelection.Paint | src/panda_util/selection.py:274-296 | clears the buffer, appends the numbered frame at the current index, displays it; keeps the display valid, so the display's new state is the replay of these calls |
| NumberedMenu.NumberedSelection.Pass | src/panda_util/selection.py:272-304 | one loop pass: the frame, then the key's effect, or no key left; keeps the display valid, so the display's new state is the replay of these calls |
| NumberedMenu.NumberedSelection.Run | src/panda_util/selection.py:255-304 | no options: None, with no display call; otherwise one clear, then the session's frames, frame `k` rendered at `sizes[k]` so that the terminal may be resized between frames; the session's result, last index and callback calls over the keys; keeps the display valid, so the display's new state is the replay of these calls |
| BoxSpec.DictKeys | src/panda_util/selection.py:175 | `.keys()` succeeds exactly on a dictionary, in order; anything else raises AttributeError |
| BoxSpec.DictValues | src/panda_util/selection.py:191 | `.values()` succeeds exactly on a dictionary, in order; anything else raises AttributeError |
| BoxSpec.HeaderShape | src/panda_util/selection.py:176-178 | a string key's header is the key with its first character upper-cased; only the empty string raises (IndexError); other keys are kept |
| BoxSpec.HeaderIdempotent | src/panda_util/selection.py:176-178 | capitalising a header again changes nothing |
| BoxSpec.FieldColumns | src/panda_util/selection.py:172-174 | a Name, Description or Value column exactly when that field of the first option is truthy, in that order |
| BoxSpec.BoxColumnsShape | src/panda_util/selection.py:171-179 | the columns are the field columns then one header per info key, in order; AttributeError for non-dict info, IndexError for an empty key |
| BoxSpec.ValueCell | src/panda_util/selection.py:186-190 | a value's cell is the first key of a non-empty dictionary, else `str(value)` |
| BoxSpec.InfoCells | src/panda_util/selection.py:191-192 | one cell per info value that is not None |
| BoxSpec.InfoCellsFilter | src/panda_util/selection.py:191-192 | the info cells are `str` of exactly the non-None values, in order |
| BoxSpec.InfoCellsStep | src/panda_util/selection.py:191-192 | one more value gives one more cell unless it is None |
| BoxSpec.FieldCells | src/panda_util/selection.py:184-190 | at most three field cells |
| BoxSpec.Cells | src/panda_util/selection.py:193 | the row's strings as cells, in order |
| BoxSpec.BoxRowShape | src/panda_util/selection.py:182-193 | a row is built exactly when the info is a dictionary: the truthy name, description and value cell, then the info cells; otherwise AttributeError |
| BoxSpec.BoxTableShape | src/panda_util/selection.py:157-193 | no options: the empty table; otherwise the title, the first option's columns and one row per option in order, or the first error raised |
| BoxSpec.ColumnsFromFirst | src/panda_util/selection.py:171-179 | the columns depend on no option but the first |
| BoxSpec.Restyled | src/panda_util/selection.py:217-218 | every row gets a style: the highlight at the index, the normal style elsewhere; the cells are kept |
| BoxSpec.RestyledForgets | src/panda_util/selection.py:217-218 | restyling forgets the styles of earlier frames |
| BoxSpec.HighlightsIndex | src/panda_util/selection.py:217-218 | with distinct styles, a row is highlighted exactly when it is at the index |
| BoxSpec.BoxFrame | src/panda_util/selection.py:221-228 | a box frame appends the table and then the controls line |
| BoxMenu.BuildRow | src/panda_util/selection.py:183-193 | the row the loops build is `BoxRow` of the option |
| BoxMenu.BoxSelection.constructor | src/panda_util/selection.py:145-154 | the base menu's fields as given, and an empty table |
| BoxMenu.BoxSelection.New | src/panda_util/selection.py:145-155 | construction raises exactly when `BoxTable` does; otherwise the menu holds `BoxTable`'s table |
| BoxMenu.BoxSelection.InitializeTable | src/panda_util/selection.py:157-193 | the table becomes `BoxTable` of the title and options, or the error it raises |
| BoxMenu.BoxSelection.AddColumns | src/panda_util/selection.py:171-179 | the columns become `BoxColumns` of the first option, or its error |
| BoxMenu.BoxSelection.AddFieldColumns | src/panda_util/selection.py:172-174 | the columns become the field columns of the first option |
| BoxMenu.BoxSelection.AddRows | src/panda_util/selection.py:182-193 | the rows become one `BoxRow` per option, or the first error raised |
| BoxMenu.BoxSelection.RestyleRows | src/panda_util/selection.py:217-218 | the table becomes `Restyled` at the current index |
| BoxMenu.BoxSelection.Paint | src/panda_util/selection.py:214-231 | clears the buffer, restyles the rows, appends the table and the controls, displays them; keeps the display valid, so the display's new state is the replay of these calls |
| BoxMenu.BoxSelection.Pass | src/panda_util/selection.py:212-239 | one loop pass: the frame, then the key's effect, or no key left; keeps the display valid, so the display's new state is the replay of these calls |
| BoxMenu.BoxSelection.Run | src/panda_util/selection.py:195-239 | no options: None, with no display call; otherwise one clear, then the session's frames, frame `k` rendered at `sizes[k]` so that the terminal may be resized between frames; the session's result, last index and callback calls, the table styled for the last index; keeps the display valid, so the display's new state is the replay of these calls |
| LegacySpec.LegacyColumnsShape | selection.py:107-113 | the legacy columns are built exactly when the first option's info is `{}`; a string key raises TypeError (or IndexError when empty), non-dict info AttributeError |
| LegacySpec.KeyCells | selection.py:121-122 | the info cells are truthy keys |
| LegacySpec.KeyCellsComplete | selection.py:121-122 | every truthy key has a cell |
| LegacySpec.KeyCellsStep | selection.py:121-122 | one more key gives one more cell exactly when it is truthy |
| LegacySpec.LegacyNameCells | selection.py:118-119 | at most the name and the description |
| LegacySpec.LegacyRowShape | selection.py:116-123 | a legacy row is built exactly when the value is falsy or a dictionary and the info is a dictionary: name, description, first value key, truthy info keys; otherwise AttributeError |
| LegacySpec.LegacyTableShape | selection.py:93-123 | the legacy table is built exactly when there are no options, or the columns and every row are |
| LegacySpec.DefaultValueBreaksLegacy | selection.py:120 | an option made with only a name makes the legacy table raise AttributeError, while the box table shows the name |
| LegacySpec.InfoKeyBreaksLegacy | selection.py:111-113 | any string info key makes the legacy columns raise TypeError, while the box columns get the capitalised key |
| LegacySpec.LegacyFrame | selection.py:142-155 | a legacy frame appends the table with row `index` highlighted, then the controls |
| LegacySpec.Reset | selection.py:161-163 | after the frames, the cells are unchanged |
| LegacySpec.ResetKeepsPlain | selection.py:140-163 | rows once shown are left in the normal style, the others untouched, so no row stays highlighted |
| LegacySpec.LegacyHighlight | selection.py:143-145 | in a table of plain styles, a frame highlights exactly the row at the index |
| LegacyMenu.LegacyFrames | selection.py:139-163 | four display calls per frame |
| LegacyMenu.LegacyPass | selection.py:139-185 | one pass either keeps the loop on track with one more frame, or ends the run as the session says |
| LegacyMenu.LegacyPainted | selection.py:140-163 | the frame at `frames[k]` extends the first `k` frames, and the table is reset at that index |
| LegacyMenu.LegacyFramesStep | selection.py:140-163 | the first `k + 1` frames are the first `k` and the frame at `frames[k]` |
| LegacyMenu.LegacyStop | selection.py:171-185 | a pass that stops the loop, or finds no key, ends the run as the session says |
| LegacyMenu.BuildLegacyRow | selection.py:117-123 | the row the loops build is `LegacyRow` of the option |
| LegacyMenu.LegacySelection.constructor | selection.py:71-90 | the fields as given, the starting index unchecked, an empty table |
| LegacyMenu.LegacySelection.New | selection.py:71-91 | construction raises exactly when `LegacyTable` does; otherwise the menu holds its table |
| LegacyMenu.LegacySelection.InitializeTable | selection.py:93-123 | the table becomes `LegacyTable` of the title and options, or the error it raises |
| LegacyMenu.LegacySelection.AddColumns | selection.py:107-113 | the columns become `LegacyColumns` of the first option, or its error |
| LegacyMenu.LegacySelection.AddFieldColumns | selection.py:108-110 | the columns become the field columns of the first option |
| LegacyMenu.LegacySelection.AddRows | selection.py:116-123 | the rows become one `LegacyRow` per option, or the first error raised |
| LegacyMenu.LegacySelection.StyleAt | selection.py:143-145 | only row `index` gets the style |
| LegacyMenu.LegacySelection.Paint | selection.py:140-163 | clears the display, highlights row `index`, appends the table and the controls, displays them, then resets that row to the normal style; keeps the display valid, so the display's new state is the replay of these calls |
| LegacyMenu.LegacySelection.HandleKey | selection.py:171-185 | moves the index modulo `n`; a choice calls the callback once and returns the value (no display clear); `esc` stops a cancellable menu; other keys change nothing |
| LegacyMenu.LegacySelection.Pass | selection.py:139-185 | one loop pass: the frame, then the key's effect, or no key left; keeps the display valid, so the display's new state is the replay of these calls |
| LegacyMenu.LegacySelection.Display | selection.py:125-185 | no options: None, with nothing touched; otherwise the session's frames, frame `k` rendered at `sizes[k]` so that the terminal may be resized between frames; the session's result, last index and callback calls, the table reset after every frame; keeps the display valid, so the display's new state is the replay of these calls |
| TileMaps.NewTile | src/panda_util/tilemap.py:5-12 | a new tile keeps its type, name and position, is not found, and prints as its name |
| TileMaps.Names | src/panda_util/tilemap.py:46 | the members' names, in order |
| TileMaps.Put | src/panda_util/tilemap.py:46 | a new name is added at the end; an existing name keeps its place |
| TileMaps.PutLookup | src/panda_util/tilemap.py:46 | after the assignment the name has the new value and every other name keeps its own |
| TileMaps.LookupNames | src/panda_util/tilemap.py:46 | a name has a value exactly when it is a member |
| TileMaps.TileTypesLast | src/panda_util/tilemap.py:46 | a given name takes its last position plus one |
| TileMaps.TileTypesAbsent | src/panda_util/tilemap.py:43-46 | a name not given is no member, except EMPTY, which is 0 |
| TileMaps.TileTypesDistinct | src/panda_util/tilemap.py:43-46 | no name is a member twice |
| TileMaps.TileTypesInOrder | src/panda_util/tilemap.py:43-46 | with distinct names other than EMPTY, the members are EMPTY = 0 then the names numbered 1, 2, … in order |
| TileMaps.TileTypesAppend | src/panda_util/tilemap.py:46 | a new name other than EMPTY goes at the end, numbered by its position |
| TileMaps.Numbered | src/panda_util/tilemap.py:46 | the names numbered from 1 in their order |
| TileMaps.DistinctAppend | src/panda_util/tilemap.py:46 | a name not among distinct names keeps them distinct |
| TileMaps.DistinctInit | src/panda_util/tilemap.py:46 | the names before the last of distinct names are distinct and exclude it |
| TileMaps.NumberedAppend | src/panda_util/tilemap.py:46 | numbering one more name adds it at the end |
| TileMaps.DefaultTileTypes | src/panda_util/tilemap.py:41-46 | the default enum is EMPTY = 0, WALL = 1, FLOOR = 2 |
| TileMaps.EmptyGrid | src/panda_util/tilemap.py:22 | `width` columns of `height` tiles (none for a negative size); `tiles[x][y]` is an EMPTY tile named `Empty` at `Vector(x, y)` |
| TileMaps.EmptyGridCell | src/panda_util/tilemap.py:22-25 | reading a new grid at in-range indices gives the EMPTY tile at that position |
| TileMaps.Resolve | src/panda_util/tilemap.py:25 | `tiles[x][y]` resolves with Python's negative indices exactly when both are in range |
| TileMaps.PlaceCell | src/panda_util/tilemap.py:24-28 | a placement succeeds exactly when the read does; afterwards the cell holds the tile, every other cell and the grid's shape are kept; otherwise IndexError |
| TileMaps.TileMap.constructor | src/panda_util/tilemap.py:18-22 | the default tile types and the empty `width` × `height` grid |
| TileMaps.TileMap.SetTile | src/panda_util/tilemap.py:27-28 | the grid becomes the placement, or is kept with IndexError; the tile types are kept |
| TileMaps.TileMap.GenerateTileTypes | src/panda_util/tilemap.py:30-46 | the tile types become those of the given names, or of WALL and FLOOR when none are given; the grid is kept |
| Vectors.Show | src/panda_util/types/vector.py:7-8 | `str` of a vector starts with `Vector(` and ends with `)` |
| Vectors.ShowParse | src/panda_util/types/vector.py:7-8 | reading back `str(v)` gives `v`: both fields, in order |
| Vectors.ShowInjective | src/panda_util/types/vector.py:3-8 | two vectors print alike exactly when they are equal, field by field |
| Vectors.CommaAt | src/panda_util/types/vector.py:8 | the first comma of a text, or its length |
| Vectors.CommaAfter | src/panda_util/types/vector.py:8 | the first comma after a comma-free prefix follows it |

## Left out

- Threads and timing are not modelled:
  - the display lock;
  - the body of `_display_loop` and its `1.0/hz` interval;
  - `join(timeout=1.0)`, daemon flags and `__del__`;
  - every `time.sleep`.
  
  The background loop is a `running` flag: it gates `display_text`, `start_display_loop` and `stop_display_loop`. The model leaves out frames the thread would paint concurrently.
- The platform is left out:
  - the Windows ANSI enable;
  - `os.system('cls'/'clear')`, which is an event `ScreenCleared`;
  - `shutil.get_terminal_size()`, which is a `Size` parameter. The source asks for the size again in every `display_text`, so a menu run takes a sequence `sizes` with one size per frame: frame `k` finds `sizes[k]`. A run paints at most one frame per key plus one, so the runs require `|keys| < |sizes|`;
  - `keyboard.read_key()`, which is a key sequence. A run that uses up the keys ends as `AwaitingKey`.
- The `rich` library is not modelled. Console rendering is an abstract function with failure, and a table is its title, columns and rows with a style each. Markup is not interpreted. `add_row` padding, column widths and renderability checks are left out.
- Menus append their table to the display as a value snapshot, so the model does not capture the aliasing by which Python's display buffer holds the same `Table` object the menu restyles later. Every frame is displayed before the next restyle, so no painted frame differs.
- `Selection.run` on the base class only raises `NotImplementedError`. It is not modelled.
- The action of an `ActionCallback` is opaque. Only its calls, with their arguments, are recorded.
- `Tile.print_info` is console output and is not modelled.
- `Enum` creation is modelled by its ordered member list:
  - Python's rejection of invalid or reserved member names is left out;
  - so is the `TileType` class object.
- Tiles are values, so a tile placed in two cells is two equal values rather than one shared object.
- `Vector` fields are integers. The namedtuple accepts any Python value there.
- PyStr.Upper: upper-cases ASCII letters only, because Unicode case mapping is not modelled.
- LegacySpec.LegacyHeader: a key that is neither a string nor None is treated as raising TypeError on item assignment. The model does not cover objects that support item assignment.
- setup.py and `src/panda_util/__init__.py` are packaging. They are not part of this model.
- PyObj.Text: this is not Python's `repr`. A string gets no choice of quote and no escaping, and the `repr` of any other object is taken to be its `str`.
- Painter.FrameCursor and Ansi.TextMoves, like the Screen module, assume two things. First, no line is wider than the terminal: a wrapped line takes two rows, but only new lines are counted. Second, nothing scrolls: a frame taller than the screen scrolls it, and then CUP no longer returns to the frame's first row.
- Screen.Feed: an escape sequence inside an item's text is taken as printed characters, not interpreted.
- Screen.FixedRenderLeavesNoRow: covers the rows from the frame's last row down. A row above it whose new line is shorter keeps its old tail, both as written and in the corrected frame.

## Findings

| source | as written | input that shows it | evidently intended | confidence | as-written member | corrected member |
|---|---|---|---|---|---|---|
| src/panda_util/display.py:89-98 | the erase loop `range(line_count, self._last_line_count)` starts one row below the row the new text ends on, and nothing erases that row past the new text | a rich frame of the items "a", "b" (three lines) and then one of "a" (two lines): row 1 still shows "b" | the previous frame's remaining lines cleared: every row from the new frame's last row down shows only the new text, e.g. by an EL after the text | high; not executed | Screen.StaleRowAfterShorterFrame | Screen.FixedRenderLeavesNoRow |
| selection.py:111-113 | `info[0] = info[0].upper()` assigns to a character of the key, and Python strings are immutable | a first option with `additional_info={"hp": 1}`: constructing the menu raises TypeError | a column headed by the key with its first character upper-cased, as src/panda_util/selection.py:176-178 does | high; not executed | LegacySpec.InfoKeyBreaksLegacy | BoxSpec.BoxColumnsShape |
| selection.py:120 | `list(option.value.keys())[0]` is called on every truthy value | `SelectionOption("a")`, whose value defaults to the string `"a"`: constructing the menu raises AttributeError | the first key of a dictionary value, else `str(value)`, as src/panda_util/selection.py:186-190 does | high; not executed | LegacySpec.DefaultValueBreaksLegacy | BoxSpec.BoxRowShape |
