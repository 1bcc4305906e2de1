/**
 * The world model, class `World` of src/scripts/index.js (lines 8-55): it
 * turns one snapshot into a grid of cells indexed `[x][y]`, an ordered list of
 * players and a list of lasers.
 */
module WorldModel {
  import opened Options
  import opened Constants
  import opened LaserGeometry

  /**
   * A JSON object of the snapshot that can sit in a grid cell: a static
   * object, a tank, or the `{type: 'empty'}` filler. Only `type` (here
   * `kind`) is ever written after parsing. Every other attribute is a value
   * the snapshot supplies; an attribute JSON leaves out is not modelled (in
   * JavaScript it reads as `undefined`, which a tile would show as the
   * token and colour `"undefined"`).
   */
  class Entity {
    var kind: string
    const position: Position
    const color: string
    const orientation: string
    const energy: int
    const name: string

    /** An object of the snapshot. */
    constructor (kind: string, position: Position, color: string, orientation: string, energy: int, name: string)
      ensures this.kind == kind && this.position == position && this.color == color
      ensures this.orientation == orientation && this.energy == energy && this.name == name
    {
      this.kind := kind;
      this.position := position;
      this.color := color;
      this.orientation := orientation;
      this.energy := energy;
      this.name := name;
    }

    /** The filler `{type: TILE_EMPTY}` of a fresh grid. */
    constructor Empty()
      ensures kind == TileEmpty
    {
      kind := TileEmpty;
      position := (0, 0);
      color := "";
      orientation := "";
      energy := 0;
      name := "";
    }
  }

  datatype Dimensions = Dimensions(width: int, height: int)

  /** The payload `parse` receives. */
  datatype Snapshot = Snapshot(dimensions: Dimensions, staticObjects: seq<Entity>, tanks: seq<Entity>, lasers: seq<Laser>)

  /** The number of times `for (let i = 0; i < n; i++)` runs. */
  function Extent(n: int): nat {
    if n < 0 then 0 else n
  }

  /** `grid` has `columns` columns of `rows` cells each. */
  predicate IsGrid(grid: seq<seq<Entity>>, columns: nat, rows: nat) {
    |grid| == columns && forall x :: 0 <= x < |grid| ==> |grid[x]| == rows
  }

  predicate InGrid(grid: seq<seq<Entity>>, p: Position) {
    0 <= p.0 < |grid| && 0 <= p.1 < |grid[p.0]|
  }

  /** Every object's position names a cell of `grid`. */
  predicate Placeable(grid: seq<seq<Entity>>, objects: seq<Entity>) {
    forall i :: 0 <= i < |objects| ==> InGrid(grid, objects[i].position)
  }

  /**
   * The last of `objects` placed at `p`, if any: the one whose write to cell
   * `p` is the one that stays.
   */
  function LastAt(objects: seq<Entity>, p: Position): Option<Entity> {
    if objects == [] then None
    else if objects[|objects| - 1].position == p then Some(objects[|objects| - 1])
    else LastAt(objects[..|objects| - 1], p)
  }

  /**
   * The occupant of `p` is one of the objects, placed at `p`; there is none
   * exactly when no object is placed at `p`.
   */
  lemma {:induction false} LastAtSpec(objects: seq<Entity>, p: Position)
    ensures LastAt(objects, p).Some? ==> LastAt(objects, p).value in objects && LastAt(objects, p).value.position == p
    ensures LastAt(objects, p).None? <==> forall i :: 0 <= i < |objects| ==> objects[i].position != p
  {
    if objects != [] {
      var init := objects[..|objects| - 1];
      LastAtSpec(init, p);
      assert objects == init + [objects[|objects| - 1]];
    }
  }

  /** Placing one more object at `p` makes it the occupant of `p` and nothing else. */
  lemma LastAtSnoc(objects: seq<Entity>, o: Entity, p: Position)
    ensures LastAt(objects + [o], p) == if o.position == p then Some(o) else LastAt(objects, p)
  {
    assert (objects + [o])[..|objects|] == objects;
  }

  /** The occupant of `p` is the object of the highest index placed there. */
  lemma {:induction false} LastAtIsLastIndex(objects: seq<Entity>, j: int)
    requires 0 <= j < |objects|
    requires NotLaterAt(objects, j)
    ensures LastAt(objects, objects[j].position) == Some(objects[j])
  {
    if j < |objects| - 1 {
      var init := objects[..|objects| - 1];
      assert init[j] == objects[j];
      LastAtIsLastIndex(init, j);
    }
  }

  /**
   * Last write wins across two batches: an object of `later` at `p` hides
   * every object of `earlier` at `p`.
   */
  lemma {:induction false} LastAtAppend(earlier: seq<Entity>, later: seq<Entity>, p: Position)
    ensures LastAt(earlier + later, p) == if LastAt(later, p).Some? then LastAt(later, p) else LastAt(earlier, p)
  {
    if later != [] {
      var init := later[..|later| - 1];
      assert (earlier + later)[..|earlier + later| - 1] == earlier + init;
      LastAtAppend(earlier, init, p);
    } else {
      assert earlier + later == earlier;
    }
  }

  /** Two grids of the same shape. */
  predicate SameShape(a: seq<seq<Entity>>, b: seq<seq<Entity>>) {
    |a| == |b| && forall x :: 0 <= x < |a| ==> |a[x]| == |b[x]|
  }

  /**
   * `grid` is `base` after writing `objects`, in order, each into the cell at
   * its position: every cell holds its last writer, or its `base` content if
   * nothing was written there.
   */
  predicate PlacedOver(grid: seq<seq<Entity>>, objects: seq<Entity>, base: seq<seq<Entity>>) {
    SameShape(grid, base) &&
    forall x, y :: 0 <= x < |grid| && 0 <= y < |grid[x]| ==> grid[x][y] == LastAt(objects, (x, y)).GetOr(base[x][y])
  }

  /**
   * What a cell of a placement holds: its `base` content when no object names
   * it, and otherwise one of the objects, placed at that cell.
   */
  lemma {:induction false} CellOccupant(grid: seq<seq<Entity>>, objects: seq<Entity>, base: seq<seq<Entity>>, x: int, y: int)
    requires PlacedOver(grid, objects, base) && 0 <= x < |grid| && 0 <= y < |grid[x]|
    ensures (forall i :: 0 <= i < |objects| ==> objects[i].position != (x, y)) ==> grid[x][y] == base[x][y]
    ensures (exists i :: 0 <= i < |objects| && objects[i].position == (x, y)) ==>
      grid[x][y] in objects && grid[x][y].position == (x, y)
  {
    LastAtSpec(objects, (x, y));
  }

  /** Writing one more object into its cell extends the placement by that object. */
  lemma PlaceOne(grid: seq<seq<Entity>>, objects: seq<Entity>, o: Entity, base: seq<seq<Entity>>)
    requires PlacedOver(grid, objects, base) && InGrid(grid, o.position)
    ensures PlacedOver(grid[o.position.0 := grid[o.position.0][o.position.1 := o]], objects + [o], base)
  {
    var (x0, y0) := o.position;
    var next := grid[x0 := grid[x0][y0 := o]];
    forall x, y | 0 <= x < |next| && 0 <= y < |next[x]|
      ensures next[x][y] == LastAt(objects + [o], (x, y)).GetOr(base[x][y])
    {
      LastAtSnoc(objects, o, (x, y));
    }
  }

  /** The step of a placement loop: object `i` is written after objects `0` to `i - 1`. */
  lemma PlaceNext(grid: seq<seq<Entity>>, objects: seq<Entity>, i: int, base: seq<seq<Entity>>)
    requires 0 <= i < |objects| && PlacedOver(grid, objects[..i], base) && InGrid(grid, objects[i].position)
    ensures objects[..i + 1] == objects[..i] + [objects[i]]
    ensures PlacedOver(grid[objects[i].position.0 := grid[objects[i].position.0][objects[i].position.1 := objects[i]]], objects[..i + 1], base)
  {
    assert objects[..i + 1] == objects[..i] + [objects[i]];
    PlaceOne(grid, objects[..i], objects[i], base);
  }

  /** Placing two batches one after the other is placing their concatenation. */
  lemma PlacedOverAppend(earlier: seq<Entity>, later: seq<Entity>, base: seq<seq<Entity>>, mid: seq<seq<Entity>>, grid: seq<seq<Entity>>)
    requires PlacedOver(mid, earlier, base) && PlacedOver(grid, later, mid)
    ensures PlacedOver(grid, earlier + later, base)
  {
    forall x, y | 0 <= x < |grid| && 0 <= y < |grid[x]|
      ensures grid[x][y] == LastAt(earlier + later, (x, y)).GetOr(base[x][y])
    {
      LastAtAppend(earlier, later, (x, y));
    }
  }

  /**
   * Tanks are placed after static objects, so the cell of a tank that no
   * later tank shares holds that tank, whatever static object sits there.
   */
  lemma TankOccupiesItsCell(statics: seq<Entity>, tanks: seq<Entity>, j: int)
    requires 0 <= j < |tanks| && NotLaterAt(tanks, j)
    ensures LastAt(statics + tanks, tanks[j].position) == Some(tanks[j])
  {
    LastAtIsLastIndex(tanks, j);
    LastAtAppend(statics, tanks, tanks[j].position);
  }

  /** Every object's position lies in `[0, width) x [0, width)`. */
  predicate WithinSquare(objects: seq<Entity>, width: int) {
    forall i :: 0 <= i < |objects| ==> 0 <= objects[i].position.0 < width && 0 <= objects[i].position.1 < width
  }

  /** In a `width x width` grid, objects within the square can be placed. */
  lemma SquarePlaceable(grid: seq<seq<Entity>>, earlier: seq<Entity>, later: seq<Entity>, width: int)
    requires IsGrid(grid, Extent(width), Extent(width)) && WithinSquare(earlier + later, width)
    ensures Placeable(grid, earlier) && Placeable(grid, later)
  {
    assert forall i :: 0 <= i < |earlier| ==> (earlier + later)[i] == earlier[i];
    assert forall j :: 0 <= j < |later| ==> (earlier + later)[|earlier| + j] == later[j];
  }

  /** No object after index `j` shares its position. */
  predicate NotLaterAt(objects: seq<Entity>, j: int)
    requires 0 <= j < |objects|
  {
    forall k :: j < k < |objects| ==> objects[k].position != objects[j].position
  }

  class World {
    var grid: seq<seq<Entity>>
    var players: seq<Entity>
    var lasers: seq<Laser>
    /** The `{type: 'empty'}` objects the last `parse` allocated, one per cell. */
    ghost var fillers: seq<seq<Entity>>

    /** `new World()`: the fields are only set by `parse`; until then they are empty here. */
    constructor ()
      ensures grid == [] && players == [] && lasers == [] && fillers == []
    {
      grid := [];
      fillers := [];
      players := [];
      lasers := [];
    }

    /**
     * `createGrid(width, height)`: `width` columns of `height` cells, each a
     * new `{type: 'empty'}` object. A negative bound gives no columns or no
     * cells, as the `for` loops then do not run.
     */
    static method CreateGrid(width: int, height: int) returns (grid: seq<seq<Entity>>)
      ensures IsGrid(grid, Extent(width), Extent(height))
      ensures forall x, y :: 0 <= x < |grid| && 0 <= y < |grid[x]| ==> fresh(grid[x][y]) && grid[x][y].kind == TileEmpty
    {
      grid := [];
      var x := 0;
      while x < width
        invariant 0 <= x <= Extent(width)
        invariant IsGrid(grid, x, Extent(height))
        invariant forall i, j :: 0 <= i < |grid| && 0 <= j < |grid[i]| ==> fresh(grid[i][j]) && grid[i][j].kind == TileEmpty
      {
        var row: seq<Entity> := [];
        var y := 0;
        while y < height
          invariant 0 <= y <= Extent(height) && |row| == y
          invariant forall j :: 0 <= j < |row| ==> fresh(row[j]) && row[j].kind == TileEmpty
          invariant forall i, j :: 0 <= i < |grid| && 0 <= j < |grid[i]| ==> fresh(grid[i][j]) && grid[i][j].kind == TileEmpty
        {
          var cell := new Entity.Empty();
          row := row + [cell];
          y := y + 1;
        }
        grid := grid + [row];
        x := x + 1;
      }
    }

    /** `addLasers`: the list is stored as it is. */
    method AddLasers(laserData: seq<Laser>)
      modifies this`lasers
      ensures lasers == laserData
    {
      lasers := laserData;
    }

    /**
     * `addAssets`: each object, in order, overwrites the cell at its
     * position, so each cell ends up holding the last object placed there.
     */
    method AddAssets(objects: seq<Entity>)
      requires Placeable(grid, objects)
      modifies this`grid
      ensures PlacedOver(grid, objects, old(grid))
    {
      var i := 0;
      while i < |objects|
        invariant 0 <= i <= |objects|
        invariant PlacedOver(grid, objects[..i], old(grid))
      {
        var obj := objects[i];
        var (x, y) := obj.position;
        PlaceNext(grid, objects, i, old(grid));
        grid := grid[x := grid[x][y := obj]];
        i := i + 1;
      }
      assert objects[..i] == objects;
    }

    /**
     * `addTanks`: each tank, in order, overwrites the cell at its position,
     * has its `type` forced to `tank` through that cell, and is appended to
     * the players. The same object is then both a cell and a player.
     */
    method AddTanks(tanks: seq<Entity>)
      requires Placeable(grid, tanks)
      modifies this`grid, this`players, set t | t in tanks
      ensures PlacedOver(grid, tanks, old(grid))
      ensures players == old(players) + tanks
      ensures forall j :: 0 <= j < |tanks| ==> tanks[j].kind == TileTank
    {
      var i := 0;
      while i < |tanks|
        invariant 0 <= i <= |tanks|
        invariant PlacedOver(grid, tanks[..i], old(grid))
        invariant players == old(players) + tanks[..i]
        invariant forall t | t in tanks[..i] :: t.kind == TileTank
      {
        var tank := tanks[i];
        var (x, y) := tank.position;
        PlaceNext(grid, tanks, i, old(grid));
        grid := grid[x := grid[x][y := tank]];
        grid[x][y].kind := TileTank;
        players := players + [tank];
        i := i + 1;
      }
      assert tanks[..i] == tanks;
    }

    /**
     * `parse`: a fresh grid sized from `dimensions.width` on both axes (the
     * height is not read), then the lasers, the static objects and the
     * tanks, in that order. Each cell holds the last object placed at it,
     * tanks after static objects, or else a fresh empty filler.
     */
    method Parse(data: Snapshot)
      requires WithinSquare(data.staticObjects + data.tanks, data.dimensions.width)
      modifies this, set t | t in data.tanks
      ensures IsGrid(fillers, Extent(data.dimensions.width), Extent(data.dimensions.width))
      ensures forall x, y :: 0 <= x < |fillers| && 0 <= y < |fillers[x]| ==>
        fresh(fillers[x][y]) && fillers[x][y] !in data.tanks && fillers[x][y].kind == TileEmpty
      ensures PlacedOver(grid, data.staticObjects + data.tanks, fillers)
      ensures players == data.tanks
      ensures forall j :: 0 <= j < |data.tanks| ==> data.tanks[j].kind == TileTank
      ensures forall i :: 0 <= i < |data.staticObjects| && data.staticObjects[i] !in data.tanks ==>
        data.staticObjects[i].kind == old(data.staticObjects[i].kind)
      ensures lasers == data.lasers
    {
      var statics, tanks := data.staticObjects, data.tanks;
      var width := data.dimensions.width;
      grid := CreateGrid(width, width);
      fillers := grid;
      players := [];

      AddLasers(data.lasers);
      SquarePlaceable(grid, statics, tanks, width);
      AddAssets(statics);
      ghost var placed := grid;
      AddTanks(tanks);
      PlacedOverAppend(statics, tanks, fillers, placed, grid);
    }
  }
}
