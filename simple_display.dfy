/** The simple painter of the top-level display.py: an item list that
    `display_text` clears the screen for, prints item by item (one line each,
    "ERROR OCCURRED" for an item whose printing raised) and then empties.

    Printing goes through the rich console (`console`) or `str` (`toStr`),
    each None when it raises; the `clear` system command is the event
    `ScreenCleared` in the log `out` of what reached the terminal. */
module SimpleDisplay {
  import opened Wrappers

  datatype Event = ScreenCleared | Line(text: string)

  const ErrorText: string := "ERROR OCCURRED"

  /** The line printed for one item. */
  function ItemLine(printed: Option<string>): Event
  {
    match printed
    case Some(text) => Line(text)
    case None => Line(ErrorText)
  }

  /** The lines `display_text` prints for `items`, in order. */
  function Lines<T>(items: seq<T>, emit: T -> Option<string>): seq<Event>
  {
    if items == [] then [] else Lines(items[..|items| - 1], emit) + [ItemLine(emit(items[|items| - 1]))]
  }

  /** One line per item, in item order: the item's text, or the error text
      exactly where printing the item raised. */
  lemma {:induction false} LinesAt<T>(items: seq<T>, emit: T -> Option<string>, i: nat)
    requires i < |items|
    ensures |Lines(items, emit)| == |items|
    ensures emit(items[i]).Some? ==> Lines(items, emit)[i] == Line(emit(items[i]).value)
    ensures emit(items[i]).None? ==> Lines(items, emit)[i] == Line(ErrorText)
  {
    if i < |items| - 1 {
      LinesAt(items[..|items| - 1], emit, i);
    } else if |items| > 1 {
      LinesAt(items[..|items| - 1], emit, 0);
    }
  }

  /** No line is the screen-clear event. */
  lemma {:induction false} LinesArePrinted<T>(items: seq<T>, emit: T -> Option<string>)
    ensures ScreenCleared !in Lines(items, emit)
  {
    if items != [] {
      LinesArePrinted(items[..|items| - 1], emit);
    }
  }

  class Display<T> {
    const console: T -> Option<string>
    const toStr: T -> Option<string>
    /** The items to display. */
    var text: seq<T>
    /** What reached the terminal. */
    var out: seq<Event>

    constructor (console: T -> Option<string>, toStr: T -> Option<string>)
      ensures text == [] && out == []
      ensures this.console == console && this.toStr == toStr
    {
      this.console := console;
      this.toStr := toStr;
      text := [];
      out := [];
    }

    /** `clear`: the platform's clear-screen command. */
    method Clear()
      modifies this`out
      ensures out == old(out) + [ScreenCleared]
    {
      out := out + [ScreenCleared];
    }

    /** `display_text`: clear the screen, emit every item in order, then
        empty the list. */
    method DisplayText(rich: bool)
      modifies this
      ensures out == old(out) + [ScreenCleared] + Lines(old(text), if rich then console else toStr)
      ensures text == []
    {
      var emit: T -> Option<string> := if rich then console else toStr;
      Clear();
      ghost var cleared := out;
      for i := 0 to |text|
        invariant text == old(text)
        invariant out == cleared + Lines(text[..i], emit)
      {
        assert text[..i + 1][..i] == text[..i];
        match emit(text[i])
        case Some(line) =>
          out := out + [Line(line)];
        case None =>
          out := out + [Line(ErrorText)];
      }
      assert text[..|text|] == text;
      text := [];
    }

    /** `display += item`: append at the end; the result is the same object. */
    method Append(item: T) returns (self: Display<T>)
      modifies this`text
      ensures self == this
      ensures text == old(text) + [item]
    {
      text := text + [item];
      self := this;
    }
  }
}
