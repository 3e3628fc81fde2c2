/** The part of the `rich` library the menus rely on: a table is a title,
    a list of column headers and a list of rows, and each row carries a
    style that the menus overwrite between frames. What the display is
    given is either a markup string or such a table. */
module RichTable {
  import opened Wrappers
  import opened PyObj

  datatype Row = Row(cells: seq<PyValue>, style: Option<string>)

  datatype Table = Table(title: Option<string>, columns: seq<PyValue>, rows: seq<Row>)

  /** Something appended to the display: a markup string or a table. */
  datatype Widget = Markup(text: string) | TableWidget(table: Table)

  /** `Table()` as freshly constructed. */
  const EmptyTable := Table(None, [], [])

  /** The rows' styles, in row order. */
  function Styles(t: Table): (r: seq<Option<string>>)
    ensures |r| == |t.rows| && forall i :: 0 <= i < |r| ==> r[i] == t.rows[i].style
  {
    seq(|t.rows|, i requires 0 <= i < |t.rows| => t.rows[i].style)
  }

  /** Sets the style of row `index` (when the table has one) and leaves
      every other part of the table as it was. */
  function SetStyle(t: Table, index: int, style: string): (r: Table)
    ensures r.title == t.title && r.columns == t.columns && |r.rows| == |t.rows|
    ensures forall i :: 0 <= i < |t.rows| ==> r.rows[i].cells == t.rows[i].cells
    ensures forall i :: 0 <= i < |t.rows| && i != index ==> r.rows[i] == t.rows[i]
    ensures 0 <= index < |t.rows| ==> r.rows[index].style == Some(style)
    ensures !(0 <= index < |t.rows|) ==> r == t
  {
    if 0 <= index < |t.rows| then t.(rows := t.rows[index := t.rows[index].(style := Some(style))])
    else t
  }
}
