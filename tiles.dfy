/**
 * Tile classification, `GridRenderer.renderTile` (src/scripts/index.js,
 * lines 83-103): the class list and inline style of the element drawn for one
 * grid cell. The element itself is not modelled, only what is set on it.
 */
module TileRenderer {
  import opened Options
  import opened Constants

  /** What `renderTile` sets on a tile element: its class tokens, in order, and its `style` attribute. */
  datatype Visual = Visual(classes: seq<string>, style: Option<string>)

  /** The four compass orientations a tank can face. */
  predicate IsOrientation(o: string) {
    o == "north" || o == "south" || o == "east" || o == "west"
  }

  predicate NoDuplicates(s: seq<string>) {
    forall i, j :: 0 <= i < j < |s| ==> s[i] != s[j]
  }

  /** `classList.add(c)`: a token already present is not added again. */
  function AddClass(classes: seq<string>, c: string): (r: seq<string>)
    ensures NoDuplicates(classes) ==> NoDuplicates(r)
    ensures (set t | t in r) == (set t | t in classes) + {c}
    ensures |r| > 0 && (|classes| > 0 ==> r[0] == classes[0])
  {
    if c in classes then classes else classes + [c]
  }

  /**
   * The visual of a cell of the given `type`. Every tile carries `tile`; a
   * tank adds `tank`, its orientation and its colour as background; a tree or
   * a wall adds its own tag; an empty cell or an unrecognised type adds
   * nothing.
   */
  function RenderTile(kind: string, orientation: string, color: string): (v: Visual)
    ensures |v.classes| > 0 && v.classes[0] == "tile" && NoDuplicates(v.classes)
    ensures (set c | c in v.classes) ==
      {"tile"} + (if kind == TileTank then {TileTank, orientation}
                  else if kind == TileTree || kind == TileWall then {kind}
                  else {})
    ensures v.style.Some? <==> kind == TileTank
    ensures v.style.Some? ==> v.style.value == BackgroundColor(color)
  {
    var base := AddClass([], "tile");
    if kind == TileEmpty then
      Visual(base, None)
    else if kind == TileTank then
      Visual(AddClass(AddClass(base, TileTank), orientation), Some(BackgroundColor(color)))
    else if kind == TileTree then
      Visual(AddClass(base, TileTree), None)
    else if kind == TileWall then
      Visual(AddClass(base, TileWall), None)
    else
      Visual(base, None)
  }

  /**
   * The kind a visual shows, read back from its tokens and style: the inverse
   * of `RenderTile` on the four kinds.
   */
  function ShownKind(v: Visual): string {
    if TileTank in v.classes && v.style.Some? then TileTank
    else if TileTree in v.classes then TileTree
    else if TileWall in v.classes then TileWall
    else TileEmpty
  }

  /**
   * A tank (whatever its orientation), a tree, a wall and an empty cell are
   * told apart by their visual; any unrecognised type is drawn like an empty
   * cell.
   */
  lemma ShownKindInverts(kind: string, orientation: string, color: string)
    ensures ShownKind(RenderTile(kind, orientation, color)) ==
      if kind in {TileTank, TileTree, TileWall} then kind else TileEmpty
  {
    var v := RenderTile(kind, orientation, color);
    var tokens := set c | c in v.classes;
    assert forall c :: c in v.classes <==> c in tokens;
    if kind == TileTank {
      assert TileTank in tokens;
    } else if kind == TileTree {
      assert TileTree in tokens;
    } else if kind == TileWall {
      assert TileTree !in tokens;
      assert TileWall in tokens;
    } else {
      assert TileTree !in tokens && TileWall !in tokens;
    }
  }

  /** A tank tile lists its classes as `tile`, `tank`, then its compass orientation. */
  lemma TankTileClasses(orientation: string, color: string)
    requires IsOrientation(orientation)
    ensures RenderTile(TileTank, orientation, color).classes == ["tile", TileTank, orientation]
  {
  }
}
