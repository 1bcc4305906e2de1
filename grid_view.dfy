/**
 * The 2D grid view, `GridRenderer` of src/scripts/index.js (lines 63-137).
 * Its DOM target is modelled as the sequence of children appended to it:
 * one column element per grid column, then one overlay per laser, so that
 * the lasers are stacked above the tiles.
 */
module GridView {
  import opened Constants
  import opened LaserGeometry
  import opened TileRenderer
  import opened WorldModel

  /** A child of the grid container. */
  datatype Element = Column(tiles: seq<Visual>) | Overlay(box: Box)

  /** `renderTile(entity)`: the visual of the object a cell holds, read from its current `type`. */
  function TileOf(e: Entity): Visual
    reads e
  {
    RenderTile(e.kind, e.orientation, e.color)
  }

  class GridRenderer {
    var children: seq<Element>

    /** The constructor empties the DOM target (`abortChildren`). */
    constructor ()
      ensures children == []
    {
      children := [];
    }

    /** The body of the inner `column.forEach`: one tile per cell, in `y` order. */
    static method RenderColumn(column: seq<Entity>) returns (tiles: seq<Visual>)
      ensures |tiles| == |column|
      ensures forall y :: 0 <= y < |column| ==> tiles[y] == TileOf(column[y])
    {
      tiles := [];
      var y := 0;
      while y < |column|
        invariant 0 <= y <= |column| && |tiles| == y
        invariant forall j :: 0 <= j < y ==> tiles[j] == TileOf(column[j])
      {
        tiles := tiles + [TileOf(column[y])];
        y := y + 1;
      }
    }

    /** `renderLasers`: one overlay per laser, in order, appended after what is already there. */
    method RenderLasers(lasers: seq<Laser>)
      modifies this`children
      ensures |children| == |old(children)| + |lasers| && children[..|old(children)|] == old(children)
      ensures forall k :: 0 <= k < |lasers| ==> children[|old(children)| + k] == Overlay(LaserBox(lasers[k]))
    {
      var k := 0;
      while k < |lasers|
        invariant 0 <= k <= |lasers|
        invariant |children| == |old(children)| + k && children[..|old(children)|] == old(children)
        invariant forall i :: |old(children)| <= i < |children| ==> children[i] == Overlay(LaserBox(lasers[i - |old(children)|]))
      {
        children := children + [Overlay(LaserBox(lasers[k]))];
        k := k + 1;
      }
    }

    /**
     * `render(world)`: one column element per column of the grid, in `x`
     * order, then the laser overlays. The target is not cleared first, so
     * a second call on the same renderer appends a second copy.
     */
    method Render(world: World)
      modifies this`children
      ensures |children| == |old(children)| + |world.grid| + |world.lasers|
      ensures children[..|old(children)|] == old(children)
      ensures forall x :: 0 <= x < |world.grid| ==>
        children[|old(children)| + x].Column? &&
        |children[|old(children)| + x].tiles| == |world.grid[x]| &&
        forall y :: 0 <= y < |world.grid[x]| ==> children[|old(children)| + x].tiles[y] == TileOf(world.grid[x][y])
      ensures forall k :: 0 <= k < |world.lasers| ==>
        children[|old(children)| + |world.grid| + k] == Overlay(LaserBox(world.lasers[k]))
    {
      var x := 0;
      while x < |world.grid|
        invariant 0 <= x <= |world.grid|
        invariant |children| == |old(children)| + x && children[..|old(children)|] == old(children)
        invariant forall i :: |old(children)| <= i < |children| ==>
          children[i].Column? &&
          |children[i].tiles| == |world.grid[i - |old(children)|]| &&
          forall y :: 0 <= y < |children[i].tiles| ==> children[i].tiles[y] == TileOf(world.grid[i - |old(children)|][y])
      {
        var tiles := RenderColumn(world.grid[x]);
        children := children + [Column(tiles)];
        x := x + 1;
      }
      ghost var columns := children;
      RenderLasers(world.lasers);
      assert forall i :: 0 <= i < |columns| ==> children[i] == columns[i];
    }
  }
}
