/** The table of the legacy menu of selection.py (and of src/selection.py,
    the same text), stated as functions of the options, as the code is
    written; and how its frames restyle that table. */
module LegacySpec {
  import opened Wrappers
  import opened PyStr
  import opened PyObj
  import opened RichTable
  import opened Options
  import opened Navigation
  import opened BoxSpec

  /** `info[0] = info[0].upper()` on a key of the first option's info: the
      read fails first on the empty string (IndexError); every other key
      reaches the item assignment, which a string does not support and
      which no other key type offers either (TypeError). */
  function LegacyHeader(key: PyValue): (r: Result<PyValue, PyError>)
  {
    if key == PyStr("") then Err(IndexError) else Err(TypeError)
  }

  /** The legacy columns: the field columns of the first option, then one
      column per key of its info, each through `LegacyHeader`. */
  function LegacyColumns(first: SelectionOption): (r: Result<seq<PyValue>, PyError>)
  {
    match DictKeys(first.additionalInfo)
    case Err(e) => Err(e)
    case Ok(keys) =>
      match TryMap(keys, LegacyHeader)
      case Err(e) => Err(e)
      case Ok(headers) => Ok(FieldColumns(first) + headers)
  }

  /** The legacy columns are built only when the first option's info is an
      empty dictionary, and then are its field columns; any key raises, the
      empty string IndexError and every other key TypeError. */
  lemma LegacyColumnsShape(first: SelectionOption)
    ensures LegacyColumns(first).Ok? <==> first.additionalInfo == PyDict([])
    ensures LegacyColumns(first).Ok? ==> LegacyColumns(first).value == FieldColumns(first)
    ensures !first.additionalInfo.PyDict? ==> LegacyColumns(first) == Err(AttributeError)
    ensures first.additionalInfo.PyDict? && first.additionalInfo.entries != [] ==>
              LegacyColumns(first)
              == Err(if first.additionalInfo.entries[0].0 == PyStr("") then IndexError else TypeError)
  {
    if first.additionalInfo.PyDict? {
      var keys := Keys(first.additionalInfo.entries);
      if keys != [] {
        assert TryMap(keys[..1], LegacyHeader) == Err(LegacyHeader(keys[0]).error) by {
          assert keys[..1][..0] == [];
        }
        TryMapStops(keys, LegacyHeader, 1);
      }
    }
  }

  /** The value cells of a legacy row: none for a falsy value, the first
      key of a truthy dictionary, and AttributeError for any other truthy
      value, which has no `keys()`. */
  function LegacyValueCells(value: PyValue): (r: Result<seq<PyValue>, PyError>)
  {
    if !IsTruthy(value) then Ok([])
    else if value.PyDict? then Ok([value.entries[0].0])
    else Err(AttributeError)
  }

  /** The info cells of a legacy row: the truthy keys, as they are. */
  function KeyCells(keys: seq<PyValue>): (r: seq<PyValue>)
    ensures |r| <= |keys|
    ensures forall c :: c in r ==> c in keys && IsTruthy(c)
  {
    if keys == [] then []
    else KeyCells(keys[..|keys| - 1]) + (if IsTruthy(keys[|keys| - 1]) then [keys[|keys| - 1]] else [])
  }

  /** Every truthy key has a cell, so the cells are exactly the truthy keys. */
  lemma {:induction false} KeyCellsComplete(keys: seq<PyValue>)
    ensures forall c :: c in keys && IsTruthy(c) ==> c in KeyCells(keys)
  {
    if keys != [] {
      var init := keys[..|keys| - 1];
      KeyCellsComplete(init);
      assert keys == init + [keys[|keys| - 1]];
    }
  }

  /** One more key: one more cell when the key is truthy. */
  lemma KeyCellsStep(prefix: seq<PyValue>, keys: seq<PyValue>, j: nat)
    requires j < |keys|
    ensures IsTruthy(keys[j]) ==> prefix + KeyCells(keys[..j]) + [keys[j]] == prefix + KeyCells(keys[..j + 1])
    ensures !IsTruthy(keys[j]) ==> KeyCells(keys[..j + 1]) == KeyCells(keys[..j])
  {
    assert keys[..j + 1][..j] == keys[..j];
  }

  /** The fixed cells of a legacy row: the truthy name and description. */
  function LegacyNameCells(o: SelectionOption): (r: seq<PyValue>)
    ensures |r| <= 2
  {
    (if o.name != "" then [PyStr(o.name)] else []) + (if o.description != "" then [PyStr(o.description)] else [])
  }

  /** The legacy row of one option: its truthy name and description, its
      value cells, then its info's truthy keys; the value is looked at
      before the info, so its error comes first. */
  function LegacyRow(o: SelectionOption): (r: Result<Row, PyError>)
  {
    match LegacyValueCells(o.value)
    case Err(e) => Err(e)
    case Ok(valueCells) =>
      match DictKeys(o.additionalInfo)
      case Err(e) => Err(e)
      case Ok(keys) => Ok(Row(LegacyNameCells(o) + valueCells + KeyCells(keys), None))
  }

  /** A legacy row is built exactly when the value is falsy or a dictionary
      and the info is a dictionary; both failures are AttributeError. */
  lemma LegacyRowShape(o: SelectionOption)
    ensures LegacyRow(o).Ok? <==> (!IsTruthy(o.value) || o.value.PyDict?) && o.additionalInfo.PyDict?
    ensures LegacyRow(o).Err? ==> LegacyRow(o).error == AttributeError
    ensures LegacyRow(o).Ok? ==>
              && LegacyRow(o).value.style == None
              && (o.name != "" ==> LegacyRow(o).value.cells[0] == PyStr(o.name))
              && (IsTruthy(o.value) ==>
                    LegacyRow(o).value.cells[|LegacyNameCells(o)|] == o.value.entries[0].0)
  {
  }

  /** The legacy `initialize_table`, as written. */
  function LegacyTable(title: string, options: seq<SelectionOption>): (r: Result<Table, PyError>)
  {
    if options == [] then Ok(EmptyTable)
    else
      match LegacyColumns(options[0])
      case Err(e) => Err(e)
      case Ok(columns) =>
        match TryMap(options, LegacyRow)
        case Err(e) => Err(e)
        case Ok(rows) => Ok(Table(Some(title), columns, rows))
  }

  /** The legacy table is built exactly when there are no options, or the
      first option's info is empty and every option's value is falsy or a
      dictionary and its info a dictionary; it then has one row per option. */
  lemma LegacyTableShape(title: string, options: seq<SelectionOption>)
    ensures LegacyTable(title, options).Ok? <==>
              options == []
              || (&& options[0].additionalInfo == PyDict([])
                  && forall i :: 0 <= i < |options| ==>
                       (!IsTruthy(options[i].value) || options[i].value.PyDict?) && options[i].additionalInfo.PyDict?)
    ensures options != [] && LegacyTable(title, options).Ok? ==>
              var t := LegacyTable(title, options).value;
              && t.title == Some(title) && t.columns == FieldColumns(options[0]) && |t.rows| == |options|
              && forall i :: 0 <= i < |options| ==> t.rows[i] == LegacyRow(options[i]).value
  {
    if options != [] {
      LegacyColumnsShape(options[0]);
      TryMapOk(options, LegacyRow);
      forall i | 0 <= i < |options|
        ensures LegacyRow(options[i]).Ok? <==>
                  (!IsTruthy(options[i].value) || options[i].value.PyDict?) && options[i].additionalInfo.PyDict?
      {
        LegacyRowShape(options[i]);
      }
    }
  }

  /** An option made with only a name has that name as its value, which is
      a non-empty string with no `keys()`: the legacy table raises for it,
      while the table of the box menu shows the name as the value. */
  lemma DefaultValueBreaksLegacy(title: string, name: string)
    requires name != ""
    ensures var options := [NewOption(name, "", PyNone, PyNone)];
            && LegacyTable(title, options) == Err(AttributeError)
            && BoxTable(title, options)
               == Ok(Table(Some(title), [PyStr("Name"), PyStr("Value")], [Row([PyStr(name), PyStr(name)], None)]))
  {
    var options := [NewOption(name, "", PyNone, PyNone)];
    var o := options[0];
    assert o == SelectionOption(name, "", PyStr(name), PyDict([]));
    assert LegacyRow(o) == Err(AttributeError);
    assert options[..1] == options && options[..0] == [];
    assert TryMap(options, LegacyRow) == Err(AttributeError);
    assert FieldCells(o) == [name, name];
    assert DictValues(o.additionalInfo) == Ok([]);
    assert InfoCells([]) == [];
    assert FieldCells(o) + InfoCells([]) == [name, name];
    assert Cells([name, name]) == [PyStr(name), PyStr(name)];
    var row := Row([PyStr(name), PyStr(name)], None);
    assert BoxRow(o) == Ok(row);
    assert TryMap(options, BoxRow) == Ok([] + [row]);
    assert [] + [row] == [row];
    assert DictKeys(o.additionalInfo) == Ok([]);
    assert TryMap([], Header) == Ok([]);
    assert FieldColumns(o) + [] == [PyStr("Name"), PyStr("Value")];
    assert BoxColumns(o) == Ok([PyStr("Name"), PyStr("Value")]);
  }

  /** Any string key in the first option's info makes the legacy table
      raise, while the box menu's table gets a column headed by the key
      with its first character upper-cased. */
  lemma InfoKeyBreaksLegacy(first: SelectionOption, key: string, v: PyValue)
    requires key != "" && first.additionalInfo == PyDict([(PyStr(key), v)])
    ensures LegacyColumns(first) == Err(TypeError)
    ensures BoxColumns(first) == Ok(FieldColumns(first) + [PyStr([Upper(key[0])] + key[1..])])
  {
    LegacyColumnsShape(first);
    var keys := [PyStr(key)];
    var header := PyStr([Upper(key[0])] + key[1..]);
    assert Keys(first.additionalInfo.entries) == keys;
    assert Header(keys[0]) == Ok(header);
    assert keys[..0] == [] && keys[..1] == keys;
    assert TryMap(keys, Header) == Ok([] + [header]);
    assert [] + [header] == [header];
    assert DictKeys(first.additionalInfo) == Ok(keys);
  }

  /** What a legacy frame appends: the table with the row at `index` in the
      highlight style, then the controls line. */
  function LegacyFrame(t: Table, index: int, highlightStyle: string, cancellable: bool): (r: seq<Widget>)
    ensures |r| == 2 && r[0] == TableWidget(SetStyle(t, index, highlightStyle))
    ensures r[1] == Markup(Controls(cancellable))
  {
    [TableWidget(SetStyle(t, index, highlightStyle)), Markup(Controls(cancellable))]
  }

  /** The table after frames at `frames`: each frame leaves the row it
      highlighted in the normal style. */
  function Reset(t: Table, frames: seq<int>, normalStyle: string): (r: Table)
    ensures SameCells(t, r)
  {
    if frames == [] then t
    else SetStyle(Reset(t, frames[..|frames| - 1], normalStyle), frames[|frames| - 1], normalStyle)
  }

  /** Every row is unstyled or in the normal style. */
  ghost predicate PlainStyles(t: Table, normalStyle: string)
  {
    forall i :: 0 <= i < |t.rows| ==> t.rows[i].style in {None, Some(normalStyle)}
  }

  /** Frames keep every row unstyled or in the normal style: a row once
      highlighted is in the normal style from then on. */
  lemma {:induction false} ResetKeepsPlain(t: Table, frames: seq<int>, normalStyle: string)
    requires PlainStyles(t, normalStyle)
    ensures PlainStyles(Reset(t, frames, normalStyle), normalStyle)
    ensures forall i :: 0 <= i < |t.rows| && i in frames ==> Reset(t, frames, normalStyle).rows[i].style == Some(normalStyle)
    ensures forall i :: 0 <= i < |t.rows| && i !in frames ==> Reset(t, frames, normalStyle).rows[i] == t.rows[i]
  {
    if frames != [] {
      var init := frames[..|frames| - 1];
      ResetKeepsPlain(t, init, normalStyle);
      assert frames == init + [frames[|frames| - 1]];
    }
  }

  /** In a table of plain styles, with distinct styles, a frame highlights
      the row at `index` and no other. */
  lemma LegacyHighlight(t: Table, index: int, highlightStyle: string, normalStyle: string)
    requires PlainStyles(t, normalStyle) && highlightStyle != normalStyle
    ensures var shown := SetStyle(t, index, highlightStyle);
            forall i :: 0 <= i < |shown.rows| ==> (shown.rows[i].style == Some(highlightStyle) <==> i == index)
  {
  }
}
