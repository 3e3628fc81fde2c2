/** The tile grid of src/panda_util/tilemap.py: tiles, the generated tile
    type enum and an x-major grid with Python's list indexing. */
module TileMaps {
  import opened Wrappers
  import opened PyObj
  import opened Vectors

  /** A member of a generated `TileType` enum: its name and its value. */
  datatype TileKind = TileKind(name: string, value: int)

  /** A `Tile`: its type, its name, its optional position and whether it
      has been found. */
  datatype Tile = Tile(kind: TileKind, name: string, position: Option<Vector>, found: bool)

  /** `Tile(tile_type, name, position)`: a tile not found yet. */
  function NewTile(kind: TileKind, name: string, position: Option<Vector>): (r: Tile)
    ensures r.kind == kind && r.name == name && r.position == position && !r.found
    ensures Show(r) == name
  {
    Tile(kind, name, position, false)
  }

  /** `str(tile)`: the tile's name. */
  function Show(t: Tile): string
  {
    t.name
  }

  /** The value of member `name` in an enum's ordered member list. */
  function Lookup(members: seq<TileKind>, name: string): Option<int>
  {
    if members == [] then None
    else if members[0].name == name then Some(members[0].value)
    else Lookup(members[1..], name)
  }

  /** The names of an enum's members, in order. */
  function Names(members: seq<TileKind>): (r: seq<string>)
    ensures |r| == |members| && forall i :: 0 <= i < |r| ==> r[i] == members[i].name
  {
    if members == [] then [] else [members[0].name] + Names(members[1..])
  }

  /** No name occurs twice. */
  predicate Distinct(names: seq<string>)
  {
    forall i, j :: 0 <= i < j < |names| ==> names[i] != names[j]
  }

  /** Python's dict item assignment on an ordered dict of members: a
      present name keeps its place and takes the new value, a new name goes
      at the end. */
  function Put(members: seq<TileKind>, name: string, value: int): (r: seq<TileKind>)
    ensures Lookup(members, name).None? ==> r == members + [TileKind(name, value)]
    ensures Lookup(members, name).Some? ==> Names(r) == Names(members)
  {
    if members == [] then [TileKind(name, value)]
    else if members[0].name == name then [TileKind(name, value)] + members[1..]
    else [members[0]] + Put(members[1..], name, value)
  }

  /** After the assignment the name has the new value and every other name
      keeps its own. */
  lemma {:induction false} PutLookup(members: seq<TileKind>, name: string, value: int, n: string)
    ensures Lookup(Put(members, name, value), n) == if n == name then Some(value) else Lookup(members, n)
  {
    if members != [] && members[0].name != name {
      PutLookup(members[1..], name, value, n);
    }
  }

  /** The type names `generate_tile_types` uses when none are given. */
  const DefaultNames: seq<string> := ["WALL", "FLOOR"]

  /** The members of the enum `generate_tile_types(names)` makes: the dict
      `{'EMPTY': 0}` updated with `names[i]: i + 1` in order. */
  function TileTypes(names: seq<string>): (r: seq<TileKind>)
  {
    if names == [] then [TileKind("EMPTY", 0)]
    else Put(TileTypes(names[..|names| - 1]), names[|names| - 1], |names|)
  }

  /** A name has a value exactly when it is a member's name. */
  lemma {:induction false} LookupNames(members: seq<TileKind>, name: string)
    ensures Lookup(members, name).None? <==> name !in Names(members)
  {
    if members != [] {
      LookupNames(members[1..], name);
      assert Names(members) == [members[0].name] + Names(members[1..]);
    }
  }

  /** A given name takes the value of its last place plus one. */
  lemma {:induction false} TileTypesLast(names: seq<string>, i: nat)
    requires i < |names| && names[i] !in names[i + 1..]
    ensures Lookup(TileTypes(names), names[i]) == Some(i + 1)
  {
    var init := names[..|names| - 1];
    var last := names[|names| - 1];
    PutLookup(TileTypes(init), last, |names|, names[i]);
    if i < |names| - 1 {
      assert last in names[i + 1..];
      assert init[i + 1..] + [last] == names[i + 1..];
      TileTypesLast(init, i);
    }
  }

  /** A name that is not given is no member, except EMPTY, which is 0. */
  lemma {:induction false} TileTypesAbsent(names: seq<string>, n: string)
    requires n !in names
    ensures Lookup(TileTypes(names), n) == if n == "EMPTY" then Some(0) else None
  {
    if names != [] {
      var init := names[..|names| - 1];
      assert names == init + [names[|names| - 1]];
      PutLookup(TileTypes(init), names[|names| - 1], |names|, n);
      TileTypesAbsent(init, n);
    }
  }

  /** No name is a member of the enum twice. */
  lemma {:induction false} TileTypesDistinct(names: seq<string>)
    ensures Distinct(Names(TileTypes(names)))
  {
    if names != [] {
      var init := names[..|names| - 1];
      var last := names[|names| - 1];
      TileTypesDistinct(init);
      LookupNames(TileTypes(init), last);
      if Lookup(TileTypes(init), last).None? {
        var before := TileTypes(init);
        assert Names(before + [TileKind(last, |names|)]) == Names(before) + [last];
        DistinctAppend(Names(before), last);
      }
    }
  }

  /** A name not in a list of distinct names keeps them distinct. */
  lemma DistinctAppend(names: seq<string>, n: string)
    requires Distinct(names) && n !in names
    ensures Distinct(names + [n])
  {
  }

  /** The names before the last of distinct names are distinct and do not
      hold the last. */
  lemma DistinctInit(names: seq<string>)
    requires names != [] && Distinct(names)
    ensures Distinct(names[..|names| - 1]) && names[|names| - 1] !in names[..|names| - 1]
  {
  }

  /** With distinct names other than EMPTY, the members are EMPTY = 0 then
      the names numbered 1, 2, ... in their order. */
  lemma {:induction false} TileTypesInOrder(names: seq<string>)
    requires Distinct(names) && "EMPTY" !in names
    ensures TileTypes(names) == [TileKind("EMPTY", 0)] + Numbered(names)
  {
    if names != [] {
      var init := names[..|names| - 1];
      var last := names[|names| - 1];
      DistinctInit(names);
      assert "EMPTY" !in init;
      TileTypesInOrder(init);
      TileTypesAppend(names);
      NumberedAppend(names);
    }
  }

  /** Numbering one more name adds it at the end, numbered by the length. */
  lemma NumberedAppend(names: seq<string>)
    requires names != []
    ensures Numbered(names) == Numbered(names[..|names| - 1]) + [TileKind(names[|names| - 1], |names|)]
  {
  }

  /** A new name other than EMPTY goes at the end of the enum. */
  lemma TileTypesAppend(names: seq<string>)
    requires names != [] && names[|names| - 1] != "EMPTY" && names[|names| - 1] !in names[..|names| - 1]
    ensures TileTypes(names) == TileTypes(names[..|names| - 1]) + [TileKind(names[|names| - 1], |names|)]
  {
    TileTypesAbsent(names[..|names| - 1], names[|names| - 1]);
  }

  /** The names numbered from 1 in their order. */
  function Numbered(names: seq<string>): (r: seq<TileKind>)
    ensures |r| == |names| && forall i :: 0 <= i < |r| ==> r[i] == TileKind(names[i], i + 1)
  {
    seq(|names|, i requires 0 <= i < |names| => TileKind(names[i], i + 1))
  }

  /** The default enum: EMPTY = 0, WALL = 1, FLOOR = 2. */
  lemma DefaultTileTypes()
    ensures TileTypes(DefaultNames) == [TileKind("EMPTY", 0), TileKind("WALL", 1), TileKind("FLOOR", 2)]
  {
    TileTypesInOrder(DefaultNames);
  }

  /** The x-major grid a new map starts with: `width` columns of `height`
      EMPTY tiles named "Empty", the tile at `[x][y]` positioned at
      `Vector(x, y)`; a negative size gives no columns or no tiles. */
  function EmptyGrid(width: int, height: int, empty: TileKind): (r: seq<seq<Tile>>)
    ensures |r| == if width < 0 then 0 else width
    ensures forall x :: 0 <= x < |r| ==> |r[x]| == if height < 0 then 0 else height
    ensures forall x, y :: 0 <= x < |r| && 0 <= y < |r[x]| ==> r[x][y] == NewTile(empty, "Empty", Some(Vector(x, y)))
  {
    var w := if width < 0 then 0 else width;
    var h := if height < 0 then 0 else height;
    seq(w, x => seq(h, y => NewTile(empty, "Empty", Some(Vector(x, y)))))
  }

  /** Where `tiles[x][y]` lands, with Python's negative indices; None when
      either index is out of range (an IndexError). */
  function Resolve(tiles: seq<seq<Tile>>, x: int, y: int): (r: Option<(nat, nat)>)
    ensures r.Some? ==> r.value.0 < |tiles| && r.value.1 < |tiles[r.value.0]|
    ensures r.Some? <==> -|tiles| <= x < |tiles| && var i := if x < 0 then x + |tiles| else x;
                                                   -|tiles[i]| <= y < |tiles[i]|
  {
    match PyIndex(x, |tiles|)
    case None => None
    case Some(i) =>
      match PyIndex(y, |tiles[i]|)
      case None => None
      case Some(j) => Some((i, j))
  }

  /** `tiles[x][y]`: the tile there, or IndexError. */
  function Cell(tiles: seq<seq<Tile>>, x: int, y: int): (r: Result<Tile, PyError>)
  {
    match Resolve(tiles, x, y)
    case None => Err(IndexError)
    case Some((i, j)) => Ok(tiles[i][j])
  }

  /** `tiles[x][y] = tile`: the new grid, or IndexError. */
  function Place(tiles: seq<seq<Tile>>, x: int, y: int, tile: Tile): (r: Result<seq<seq<Tile>>, PyError>)
  {
    match Resolve(tiles, x, y)
    case None => Err(IndexError)
    case Some((i, j)) => Ok(tiles[i := tiles[i][j := tile]])
  }

  /** After a successful placement the cell holds the tile and every other
      cell, reached by any indices, holds what it held; placement fails
      exactly where reading fails, and the grid keeps its shape. */
  lemma PlaceCell(tiles: seq<seq<Tile>>, x: int, y: int, tile: Tile)
    ensures Place(tiles, x, y, tile).Ok? <==> Cell(tiles, x, y).Ok?
    ensures Place(tiles, x, y, tile).Err? ==> Place(tiles, x, y, tile).error == IndexError
    ensures Place(tiles, x, y, tile).Ok? ==>
              var after := Place(tiles, x, y, tile).value;
              && |after| == |tiles| && (forall i :: 0 <= i < |tiles| ==> |after[i]| == |tiles[i]|)
              && Cell(after, x, y) == Ok(tile)
              && forall x2, y2 :: Resolve(tiles, x2, y2) != Resolve(tiles, x, y) ==>
                                    Cell(after, x2, y2) == Cell(tiles, x2, y2)
  {
    if Place(tiles, x, y, tile).Ok? {
      var after := Place(tiles, x, y, tile).value;
      forall x2, y2
        ensures Resolve(after, x2, y2) == Resolve(tiles, x2, y2)
      {
      }
    }
  }

  /** A new grid holds, at any in-range indices, the EMPTY tile positioned
      at the indices counted from the start. */
  lemma EmptyGridCell(width: int, height: int, empty: TileKind, x: int, y: int)
    ensures var g := EmptyGrid(width, height, empty);
            Cell(g, x, y).Ok? <==> -width <= x < width && -height <= y < height
    ensures var g := EmptyGrid(width, height, empty);
            Cell(g, x, y).Ok? ==>
              Cell(g, x, y) == Ok(NewTile(empty, "Empty", Some(Vector(if x < 0 then x + width else x,
                                                                     if y < 0 then y + height else y))))
  {
    var g := EmptyGrid(width, height, empty);
    if -width <= x < width {
      var i := if x < 0 then x + width else x;
      assert |g[i]| == if height < 0 then 0 else height;
    }
  }

  class TileMap {
    const width: int
    const height: int
    /** The members of `self.TileType`. */
    var tileTypes: seq<TileKind>
    var tiles: seq<seq<Tile>>

    /** `TileMap(width, height)`: the default tile types and a grid of
        EMPTY tiles. */
    constructor (width: int, height: int)
      ensures this.width == width && this.height == height
      ensures tileTypes == TileTypes(DefaultNames)
      ensures tiles == EmptyGrid(width, height, TileKind("EMPTY", 0))
    {
      this.width := width;
      this.height := height;
      tileTypes := [];
      tiles := [];
      new;
      GenerateTileTypes(None);
      DefaultTileTypes();
      var empty := Lookup(tileTypes, "EMPTY");
      tiles := EmptyGrid(width, height, TileKind("EMPTY", empty.value));
    }

    /** `get_tile(x, y)`: `tiles[x][y]`. */
    function GetTile(x: int, y: int): (r: Result<Tile, PyError>)
      reads this
    {
      Cell(tiles, x, y)
    }

    /** `set_tile(x, y, tile)`: on success the grid is the old one with the
        tile at `[x][y]`; out of range it raises IndexError and changes
        nothing. */
    method SetTile(x: int, y: int, tile: Tile) returns (err: Option<PyError>)
      modifies this
      ensures tileTypes == old(tileTypes)
      ensures err == None <==> Place(old(tiles), x, y, tile).Ok?
      ensures err == None ==> tiles == Place(old(tiles), x, y, tile).value
      ensures err != None ==> err == Some(IndexError) && tiles == old(tiles)
    {
      var i := PyIndex(x, |tiles|);
      if i.None? {
        return Some(IndexError);
      }
      var j := PyIndex(y, |tiles[i.value]|);
      if j.None? {
        return Some(IndexError);
      }
      tiles := tiles[i.value := tiles[i.value][j.value := tile]];
      return None;
    }

    /** `generate_tile_types(type_names)`: replaces the enum with one made
        from the names, WALL and FLOOR when none are given. */
    method GenerateTileTypes(typeNames: Option<seq<string>>)
      modifies this
      ensures tiles == old(tiles)
      ensures tileTypes == TileTypes(if typeNames.None? then DefaultNames else typeNames.value)
    {
      var names := if typeNames.None? then DefaultNames else typeNames.value;
      tileTypes := TileTypes(names);
    }
  }
}
