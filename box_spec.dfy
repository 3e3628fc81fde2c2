/** The table of the box menu of src/panda_util/selection.py, stated as
    functions of the options: its columns come from the first option, its
    rows from every option, and each frame restyles the rows so that the
    row at the menu's index stands out. */
module BoxSpec {
  import opened Wrappers
  import opened PyStr
  import opened PyObj
  import opened RichTable
  import opened Options
  import opened Navigation

  /** `d.keys()`: a dictionary's keys in order; anything else has no such
      method. */
  function DictKeys(v: PyValue): (r: Result<seq<PyValue>, PyError>)
    ensures r.Ok? <==> v.PyDict?
    ensures r.Err? ==> r.error == AttributeError
    ensures r.Ok? ==> |r.value| == |v.entries| && forall i :: 0 <= i < |r.value| ==> r.value[i] == v.entries[i].0
  {
    if v.PyDict? then Ok(Keys(v.entries)) else Err(AttributeError)
  }

  /** `d.values()`, in the same way. */
  function DictValues(v: PyValue): (r: Result<seq<PyValue>, PyError>)
    ensures r.Ok? <==> v.PyDict?
    ensures r.Err? ==> r.error == AttributeError
    ensures r.Ok? ==> |r.value| == |v.entries| && forall i :: 0 <= i < |r.value| ==> r.value[i] == v.entries[i].1
  {
    if v.PyDict? then Ok(Values(v.entries)) else Err(AttributeError)
  }

  /** The header of an additional-info column: a string key with its first
      character upper-cased, IndexError for the empty string, and any other
      key as it is. */
  function Header(key: PyValue): (r: Result<PyValue, PyError>)
  {
    if key.PyStr? then
      if key.s == "" then Err(IndexError) else Ok(PyStr([Upper(key.s[0])] + key.s[1..]))
    else Ok(key)
  }

  /** A header fails only on the empty string; it keeps the key's length
      and every character after the first, and upper-cases the first. */
  lemma HeaderShape(key: PyValue)
    ensures Header(key).Err? <==> key == PyStr("")
    ensures Header(key).Err? ==> Header(key).error == IndexError
    ensures !key.PyStr? ==> Header(key) == Ok(key)
    ensures key.PyStr? && key.s != "" ==>
              && Header(key).value.PyStr?
              && |Header(key).value.s| == |key.s|
              && Header(key).value.s[1..] == key.s[1..]
              && Header(key).value.s[0] == Upper(key.s[0])
              && !('a' <= Header(key).value.s[0] <= 'z')
  {
  }

  /** Capitalising a header again changes nothing. */
  lemma HeaderIdempotent(key: PyValue)
    requires Header(key).Ok?
    ensures Header(Header(key).value) == Header(key)
  {
    if key.PyStr? {
      var h := Header(key).value;
      assert h.s[0] == Upper(key.s[0]);
      assert [Upper(h.s[0])] + h.s[1..] == h.s;
    }
  }

  /** The column headers for the fields of the first option that are
      truthy: Name, Description, Value, in that order. */
  function FieldColumns(first: SelectionOption): (r: seq<PyValue>)
    ensures |r| <= 3
    ensures (PyStr("Name") in r) <==> first.name != ""
    ensures (PyStr("Description") in r) <==> first.description != ""
    ensures (PyStr("Value") in r) <==> IsTruthy(first.value)
    ensures first.name != "" ==> r[0] == PyStr("Name")
  {
    (if first.name != "" then [PyStr("Name")] else [])
      + (if first.description != "" then [PyStr("Description")] else [])
      + (if IsTruthy(first.value) then [PyStr("Value")] else [])
  }

  /** The columns of the box table: the field columns of the first option,
      then one header per key of its additional info. */
  function BoxColumns(first: SelectionOption): (r: Result<seq<PyValue>, PyError>)
  {
    match DictKeys(first.additionalInfo)
    case Err(e) => Err(e)
    case Ok(keys) =>
      match TryMap(keys, Header)
      case Err(e) => Err(e)
      case Ok(headers) => Ok(FieldColumns(first) + headers)
  }

  /** The columns are built exactly when the additional info is a dictionary
      without an empty string key, and then hold the field columns followed
      by each key's header in the dictionary's order. */
  lemma BoxColumnsShape(first: SelectionOption)
    ensures BoxColumns(first).Ok? <==>
              first.additionalInfo.PyDict? && PyStr("") !in Keys(first.additionalInfo.entries)
    ensures !first.additionalInfo.PyDict? ==> BoxColumns(first) == Err(AttributeError)
    ensures BoxColumns(first).Err? && first.additionalInfo.PyDict? ==> BoxColumns(first) == Err(IndexError)
    ensures BoxColumns(first).Ok? ==>
              var keys := Keys(first.additionalInfo.entries);
              var fields := FieldColumns(first);
              && |BoxColumns(first).value| == |fields| + |keys|
              && BoxColumns(first).value[..|fields|] == fields
              && forall j :: 0 <= j < |keys| ==> BoxColumns(first).value[|fields| + j] == Header(keys[j]).value
  {
    if first.additionalInfo.PyDict? {
      var keys := Keys(first.additionalInfo.entries);
      TryMapOk(keys, Header);
      if PyStr("") in keys {
        var j :| 0 <= j < |keys| && keys[j] == PyStr("");
        assert Header(keys[j]).Err?;
        TryMapError(keys, Header, IndexError);
      } else {
        forall j | 0 <= j < |keys|
          ensures Header(keys[j]).Ok?
        {
          assert keys[j] != PyStr("");
        }
      }
    }
  }

  /** The cell of a truthy value: the first key of a non-empty dictionary,
      otherwise the value itself, as a string. */
  function ValueCell(value: PyValue): (r: string)
    ensures value.PyStr? ==> r == value.s
    ensures value.PyDict? && value.entries != [] ==> r == Str(value.entries[0].0)
  {
    if value.PyDict? && value.entries != [] then Str(value.entries[0].0) else Str(value)
  }

  /** The cells of the additional-info values that are not None, as strings,
      in order. */
  function InfoCells(values: seq<PyValue>): (r: seq<string>)
    ensures |r| <= |values|
  {
    if values == [] then []
    else InfoCells(values[..|values| - 1])
           + (if values[|values| - 1] != PyNone then [Str(values[|values| - 1])] else [])
  }

  /** The info cells are exactly the values that are not None, in order:
      leaving out the None values and taking `str` of the rest. */
  lemma {:induction false} InfoCellsFilter(values: seq<PyValue>)
    ensures |InfoCells(values)| == |values| - multiset(values)[PyNone]
    ensures (forall i :: 0 <= i < |values| ==> values[i] != PyNone) ==>
              InfoCells(values) == seq(|values|, i requires 0 <= i < |values| => Str(values[i]))
  {
    if values != [] {
      var init := values[..|values| - 1];
      InfoCellsFilter(init);
      assert values == init + [values[|values| - 1]];
      assert multiset(values) == multiset(init) + multiset{values[|values| - 1]};
      if forall i :: 0 <= i < |values| ==> values[i] != PyNone {
        assert forall i :: 0 <= i < |init| ==> init[i] != PyNone by {
          forall i | 0 <= i < |init| ensures init[i] != PyNone {
            assert init[i] == values[i];
          }
        }
      }
    }
  }

  /** The info cells of one more value: one more cell unless it is None. */
  lemma InfoCellsStep(prefix: seq<string>, values: seq<PyValue>, j: nat)
    requires j < |values|
    ensures values[j] != PyNone ==>
              prefix + InfoCells(values[..j]) + [Str(values[j])] == prefix + InfoCells(values[..j + 1])
    ensures values[j] == PyNone ==> InfoCells(values[..j + 1]) == InfoCells(values[..j])
  {
    assert values[..j + 1][..j] == values[..j];
  }

  /** The cells of an option's row, without the info values. */
  function FieldCells(o: SelectionOption): (r: seq<string>)
    ensures |r| <= 3
  {
    (if o.name != "" then [o.name] else [])
      + (if o.description != "" then [o.description] else [])
      + (if IsTruthy(o.value) then [ValueCell(o.value)] else [])
  }

  /** The strings `cells` as table cells. */
  function Cells(cells: seq<string>): (r: seq<PyValue>)
    ensures |r| == |cells| && forall i :: 0 <= i < |cells| ==> r[i] == PyStr(cells[i])
  {
    seq(|cells|, i requires 0 <= i < |cells| => PyStr(cells[i]))
  }

  /** The row of one option: its truthy name and description, the cell of
      its truthy value, then its info cells; unstyled. */
  function BoxRow(o: SelectionOption): (r: Result<Row, PyError>)
  {
    match DictValues(o.additionalInfo)
    case Err(e) => Err(e)
    case Ok(values) => Ok(Row(Cells(FieldCells(o) + InfoCells(values)), None))
  }

  /** A row is built exactly when the option's additional info is a
      dictionary; it starts with the option's own name when that is not
      empty, and the value cell comes right after the name and description. */
  lemma BoxRowShape(o: SelectionOption)
    ensures BoxRow(o).Ok? <==> o.additionalInfo.PyDict?
    ensures BoxRow(o).Err? ==> BoxRow(o).error == AttributeError
    ensures BoxRow(o).Ok? ==>
              var cells := BoxRow(o).value.cells;
              var values := Values(o.additionalInfo.entries);
              && BoxRow(o).value.style == None
              && |cells| == |FieldCells(o)| + |InfoCells(values)|
              && (o.name != "" ==> cells[0] == PyStr(o.name))
              && (IsTruthy(o.value) ==> cells[|FieldCells(o)| - 1] == PyStr(ValueCell(o.value)))
              && forall j :: 0 <= j < |InfoCells(values)| ==>
                   cells[|FieldCells(o)| + j] == PyStr(InfoCells(values)[j])
  {
  }

  /** `initialize_table`: the empty table when there are no options;
      otherwise the menu's title, the columns of the first option and one
      row per option; or the first exception raised on the way. */
  function BoxTable(title: string, options: seq<SelectionOption>): (r: Result<Table, PyError>)
  {
    if options == [] then Ok(EmptyTable)
    else
      match BoxColumns(options[0])
      case Err(e) => Err(e)
      case Ok(columns) =>
        match TryMap(options, BoxRow)
        case Err(e) => Err(e)
        case Ok(rows) => Ok(Table(Some(title), columns, rows))
  }

  /** The table is built exactly when the columns of the first option are
      and every option's row is; it then has the title, the columns of the
      first option only, and row `i` built from option `i`. */
  lemma BoxTableShape(title: string, options: seq<SelectionOption>)
    ensures options == [] ==> BoxTable(title, options) == Ok(EmptyTable)
    ensures options != [] ==>
              (BoxTable(title, options).Ok? <==>
                 BoxColumns(options[0]).Ok? && forall i :: 0 <= i < |options| ==> BoxRow(options[i]).Ok?)
    ensures options != [] && BoxTable(title, options).Ok? ==>
              var t := BoxTable(title, options).value;
              && t.title == Some(title)
              && t.columns == BoxColumns(options[0]).value
              && |t.rows| == |options|
              && forall i :: 0 <= i < |options| ==> t.rows[i] == BoxRow(options[i]).value
  {
    if options != [] {
      TryMapOk(options, BoxRow);
    }
  }

  /** The columns do not depend on any option but the first. */
  lemma ColumnsFromFirst(title: string, options: seq<SelectionOption>, others: seq<SelectionOption>)
    requires options != [] && others != [] && options[0] == others[0]
    requires BoxTable(title, options).Ok? && BoxTable(title, others).Ok?
    ensures BoxTable(title, options).value.columns == BoxTable(title, others).value.columns
  {
  }

  /** Every row is fully styled: the row at `index` in the highlight style,
      every other row in the normal style, the cells untouched. */
  function Restyled(t: Table, index: int, highlightStyle: string, normalStyle: string): (r: Table)
    ensures SameCells(t, r)
    ensures forall i :: 0 <= i < |r.rows| ==> r.rows[i].style == Some(if i == index then highlightStyle else normalStyle)
  {
    t.(rows := seq(|t.rows|, i requires 0 <= i < |t.rows| =>
                     t.rows[i].(style := Some(if i == index then highlightStyle else normalStyle))))
  }

  /** Two tables that differ at most in their rows' styles. */
  ghost predicate SameCells(a: Table, b: Table)
  {
    && a.title == b.title && a.columns == b.columns && |a.rows| == |b.rows|
    && forall i :: 0 <= i < |a.rows| ==> a.rows[i].cells == b.rows[i].cells
  }

  /** Restyling forgets every earlier style: a table with the same cells
      restyles to the same table. */
  lemma RestyledForgets(a: Table, b: Table, index: int, highlightStyle: string, normalStyle: string)
    requires SameCells(a, b)
    ensures Restyled(a, index, highlightStyle, normalStyle) == Restyled(b, index, highlightStyle, normalStyle)
  {
    var ra := Restyled(a, index, highlightStyle, normalStyle);
    var rb := Restyled(b, index, highlightStyle, normalStyle);
    assert forall i :: 0 <= i < |ra.rows| ==> ra.rows[i] == rb.rows[i];
  }

  /** With distinct styles, the highlighted row is the one at `index` and
      no other; an index outside the rows highlights none. */
  lemma HighlightsIndex(t: Table, index: int, highlightStyle: string, normalStyle: string)
    requires highlightStyle != normalStyle
    ensures var r := Restyled(t, index, highlightStyle, normalStyle);
            forall i :: 0 <= i < |r.rows| ==> (r.rows[i].style == Some(highlightStyle) <==> i == index)
  {
  }

  /** What the box menu appends for one frame: the restyled table and the
      controls line. */
  function BoxFrame(table: Table, cancellable: bool): (r: seq<Widget>)
    ensures |r| == 2 && r[0] == TableWidget(table) && r[1] == Markup(Controls(cancellable))
  {
    [TableWidget(table), Markup(Controls(cancellable))]
  }
}
