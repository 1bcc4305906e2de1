/**
 * The layout constants and tile kinds shared by the world model and the
 * renderers (src/scripts/index.js, lines 1-5), and the grid coordinate
 * that objects and lasers carry.
 */
module Constants {

  /** A grid coordinate `[x, y]`, as the snapshot gives it. */
  type Position = (int, int)

  /** The `type` tags a grid cell can carry. */
  const TileEmpty: string := "empty"
  const TileTank: string := "tank"
  const TileTree: string := "tree"
  const TileWall: string := "wall"

  /** Pixels per grid cell, used for tiles and laser overlays alike. */
  const TileSize: int := 50

  /** The inline style that paints an element in `color`; the colour is not validated. */
  function BackgroundColor(color: string): string {
    "background-color: " + color
  }
}
