/**
 * A client of the model, doing what `renderWorld` does but with the 2D grid
 * renderer: a three-by-three snapshot with one wall, one tank and one laser
 * is parsed, the grid is drawn and the player panel is filled. The facts
 * below follow from the contracts and lemmas of the other modules.
 */
module Scenario {
  import opened Options
  import opened Constants
  import opened LaserGeometry
  import opened TileRenderer
  import opened WorldModel
  import opened GridView
  import opened PlayerList

  method WallTankAndLaser() {
    var wall := new Entity(TileWall, (0, 0), "", "", 0, "");
    var tank := new Entity(TileTree, (1, 1), "#f00", "north", 3, "A");
    var data := Snapshot(Dimensions(3, 7), [wall], [tank], [Laser((2, 0), (2, 2), "south")]);
    var world := new World();
    world.Parse(data);

    // The grid is three by three whatever the height; the wall and the tank
    // own their cells, and every other cell is still an empty filler.
    var placed := data.staticObjects + data.tanks;
    assert placed == [wall, tank];
    LastAtIsLastIndex(placed, 0);
    TankOccupiesItsCell(data.staticObjects, data.tanks, 0);
    assert world.grid[0][0] == wall && wall.kind == TileWall;
    assert world.grid[1][1] == tank && tank.kind == TileTank;
    forall x, y | 0 <= x < 3 && 0 <= y < 3 && (x, y) != (0, 0) && (x, y) != (1, 1)
      ensures world.grid[x][y].kind == TileEmpty
    {
      LastAtSpec(placed, (x, y));
    }
    assert world.players == [tank];

    DrawGrid(world, tank);
    FillPanel(world.players, tank);
  }

  /** The grid view of that world: three columns, then the laser's overlay. */
  method DrawGrid(world: World, tank: Entity)
    requires |world.grid| == 3 && forall x :: 0 <= x < 3 ==> |world.grid[x]| == 3
    requires world.grid[1][1] == tank && tank.kind == TileTank && tank.orientation == "north"
    requires world.lasers == [Laser((2, 0), (2, 2), "south")]
  {
    var view := new GridRenderer();
    view.Render(world);
    assert |view.children| == 4;
    assert view.children[1].tiles[1] == TileOf(tank);
    TankTileClasses(tank.orientation, tank.color);
    assert view.children[1].tiles[1].classes == ["tile", "tank", "north"];
    var beam := world.lasers[0];
    assert view.children[3] == Overlay(LaserBox(beam));
    assert LaserBox(beam) == Box(100, 0, 50, 150);
  }

  /** The player panel of that world: one entry with three hearts. */
  method FillPanel(players: seq<Entity>, tank: Entity)
    requires players == [tank] && tank.energy == 3 && tank.color == "#f00"
  {
    var panel := new PlayerListRenderer();
    var ok := panel.Render(players);
    assert EntryOf(tank).Some?;
    assert ok && |panel.entries| == 1;
    assert panel.entries[0].swatchStyle == "background-color: #f00";
    assert TextContent(panel.entries[0].life) == [HeartGlyph, HeartGlyph, HeartGlyph];
  }
}
