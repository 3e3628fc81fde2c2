/** The frames of the numbered menu of src/panda_util/selection.py and
    the session its run goes through, stated as functions of the menu. */
module NumberedSpec {
  import opened Wrappers
  import opened PyStr
  import opened PyObj
  import opened RichTable
  import opened Options
  import opened Navigation
  import opened Menu
  import Painter

  /** The text of option `i` in a numbered menu: its number counted from
      one, then the name, then " - " and the description when there is one. */
  function OptionText(i: nat, option: SelectionOption): string
  {
    NatToString(i + 1) + ". " + option.name + (if option.description != "" then " - " + option.description else "")
  }

  /** The number at the head of an option's text is its position plus one. */
  lemma OptionNumber(i: nat, option: SelectionOption)
    ensures ParseNat(DigitPrefix(OptionText(i, option))) == Some(i + 1)
  {
    var digits := NatToString(i + 1);
    var rest := ". " + option.name + (if option.description != "" then " - " + option.description else "");
    assert OptionText(i, option) == digits + rest;
    DigitPrefixOf(digits, rest);
    NatRoundTrip(i + 1);
  }

  /** Options at different positions never share a line text, whatever
      their names. */
  lemma OptionTextsDiffer(i: nat, j: nat, a: SelectionOption, b: SelectionOption)
    requires i != j
    ensures OptionText(i, a) != OptionText(j, b)
  {
    OptionNumber(i, a);
    OptionNumber(j, b);
  }

  /** The markup line of an option, wrapped in its style. */
  function OptionLine(i: nat, option: SelectionOption, style: string): string
  {
    "[" + style + "]" + OptionText(i, option) + "[/" + style + "]"
  }

  /** The lines of one numbered frame: the title in bold, one line per
      option (the option at `index` in the highlight style, the others in
      the normal style), an empty line and the controls line. */
  function NumberedFrame(title: string, options: seq<SelectionOption>, index: int, highlightStyle: string,
                         normalStyle: string, cancellable: bool): (r: seq<Widget>)
    ensures |r| == |options| + 3
    ensures r[0] == Markup("[bold]" + title + "[/bold]")
    ensures forall i :: 0 <= i < |options| ==>
              r[i + 1] == Markup(OptionLine(i, options[i], if i == index then highlightStyle else normalStyle))
    ensures r[|options| + 1] == Markup("") && r[|options| + 2] == Markup(Controls(cancellable))
  {
    [Markup("[bold]" + title + "[/bold]")]
      + seq(|options|, i requires 0 <= i < |options| =>
              Markup(OptionLine(i, options[i], if i == index then highlightStyle else normalStyle)))
      + [Markup(""), Markup(Controls(cancellable))]
  }
}
