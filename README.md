# tankbattle-renderer: a verified model of the world parser and the renderers' data logic

The browser client of tankbattle receives a JSON snapshot of the game each
tick. It builds a `World` from the snapshot, and then draws three things: the
grid tiles, the laser overlays and the player panel. This project models the
deterministic part of that code in `src/scripts/index.js` and proves what it
computes:

- **the world** (`WorldModel`): `parse`, `createGrid`, `addAssets`, `addTanks`
  and `addLasers`. `World` is a class whose `grid`, `players` and `lasers`
  fields are reassigned by loop methods. Grid cells are `Entity` objects, the
  JSON objects of the snapshot. A tank's `type` (here `kind`) is overwritten
  in place. The very same tank object becomes both a grid cell and a player.
  Placement is last-write-wins, stated through `LastAt`, the last object
  placed at a position. `PlacedOver` says that every cell holds its last
  writer, or its original content when nothing was written there;
- **tile classification** (`TileRenderer`): `renderTile` as a function from a
  cell's type, orientation and colour to its CSS class list and optional
  style. `classList.add` does not add a token twice, and the model keeps
  that rule;
- **laser geometry** (`LaserGeometry`): the `left`, `top`, `width` and
  `height` in pixels that `renderLasers` gives each laser overlay;
- **the grid renderer** (`GridView`): appends one column per grid column,
  then one overlay per laser, to a target modelled as a sequence of
  elements;
- **the player panel** (`PlayerList`): the entry `renderPlayer` appends for
  each player. The entry holds the swatch style, the name and the life
  markup: `energy` copies of `&#10084;`, which the browser shows as `energy`
  heart glyphs. `new Array(energy)` throws a RangeError for a negative or
  too-large energy. The model keeps this error path as an `Option`, and
  `render` stops at the first player that hits it;
- **the constants** `TILE_EMPTY`, `TILE_TANK`, `TILE_TREE`, `TILE_WALL` and
  `TILE_SIZE` (`Constants`).

`Scenario` does what `renderWorld` does, but with the 2D grid renderer. It
parses a snapshot with a wall, a tank that arrives typed `tree`, and one
laser. The height it gives is 7, but the grid comes out three by three.
It then draws the grid with `GridRenderer.Render` and fills the player panel
from `world.players`. The facts it states are derived from the other
modules' contracts and lemmas:

- the wall and the tank sit in their cells, and every other cell is an
  empty filler;
- the tank's type is now `tank`, and `players` is exactly that tank;
- the grid view is three columns followed by the laser's overlay box;
- the tank's tile has the classes `tile`, `tank`, `north`;
- the panel's one entry shows three hearts.

The model follows the code, including these behaviours a reader might not
expect:

- Neither renderer clears its target when it renders. Only the constructors
  empty it, through `abortChildren` (src/scripts/index.js:64-67, 195-198).
  `GridRenderer.render` and `PlayerListRenderer.render` append after
  whatever is already there (src/scripts/index.js:69-81, 200-204).
- The grid is `width × width`. `dimensions.height` is never read
  (src/scripts/index.js:10).
- `GridRenderer` is not used by `renderWorld`, which draws with the 3D
  renderer instead (src/scripts/index.js:230-238). It is still modelled here.

## Model

| member | source | states |
|---|---|---|
| WorldModel.Entity.constructor | src/scripts/index.js:9-15 | a snapshot object carries the position, colour, orientation, energy and name it is given, and its type |
| WorldModel.Entity.Empty | src/scripts/index.js:24-26 | the filler object of a fresh grid has type `empty` |
| WorldModel.LastAtSpec | src/scripts/index.js:33-50 | the object that ends up at a position is one of the placed objects, and it has that position; there is none exactly when no object has that position |
| WorldModel.LastAtSnoc | src/scripts/index.js:37 | one more write makes its object the occupant of its own cell and changes no other cell |
| WorldModel.LastAtIsLastIndex | src/scripts/index.js:34-38 | the occupant of a position is the object of highest index placed there (last write wins) |
| WorldModel.LastAtAppend | src/scripts/index.js:14-15 | with static objects written first and tanks second, a tank at a position hides every static object there; without one, the static objects decide |
| WorldModel.CellOccupant | src/scripts/index.js:33-50 | a cell no object names keeps its original content (an untouched cell stays the empty filler); a named cell holds one of the objects, located at that cell |
| WorldModel.PlaceOne | src/scripts/index.js:37 | writing one object into the cell at its position extends a placement by that object |
| WorldModel.PlaceNext | src/scripts/index.js:34-38 | the loop step: writing the object at index `i` takes the placement of objects `0..i-1` to the placement of `0..i` |
| WorldModel.PlacedOverAppend | src/scripts/index.js:14-15 | placing the static objects and then the tanks gives the same grid as placing their concatenation |
| WorldModel.TankOccupiesItsCell | src/scripts/index.js:14-15 | the cell of a tank that no later tank shares holds that tank, whatever static object was placed there |
| WorldModel.SquarePlaceable | src/scripts/index.js:10 | in a `width × width` grid, every object whose coordinates lie in `[0, width)` names an existing cell |
| WorldModel.World.constructor | src/scripts/index.js:8 | a new world's grid, players and lasers start as empty sequences (see "## Left out" for the difference from JavaScript) |
| WorldModel.World.CreateGrid | src/scripts/index.js:18-31 | exactly `width` columns of exactly `height` cells (none for a negative bound); every cell is a new object of type `empty` |
| WorldModel.World.AddLasers | src/scripts/index.js:52-54 | the laser list is stored unchanged |
| WorldModel.World.AddAssets | src/scripts/index.js:33-39 | every cell holds the last object placed at it, or its previous content if none was |
| WorldModel.World.AddTanks | src/scripts/index.js:41-50 | every cell holds the last tank placed at it, or its previous content; the tanks are appended to `players` in input order as the same objects; every tank's type becomes `tank` |
| WorldModel.World.Parse | src/scripts/index.js:9-16 | the fillers form a fresh `width × width` grid typed `empty` (the height is ignored); each cell holds the last static object or tank placed at it, tanks after statics, or else its filler; `players` is the tank list itself; every tank has type `tank`; a static object that is not a tank keeps its type; the lasers are stored unchanged |
| TileRenderer.AddClass | src/scripts/index.js:85-99 | `classList.add`: the token set grows by exactly the new class, no token appears twice, and the first token does not move |
| TileRenderer.RenderTile | src/scripts/index.js:83-103 | the first class is always `tile`; a tank adds `tank` and its orientation, a tree or wall adds only its own class, an empty or unknown type adds nothing; a style is set exactly for a tank, and it is `background-color: ` followed by the colour unchanged |
| TileRenderer.ShownKindInverts | src/scripts/index.js:87-101 | reading the tile's classes and style back gives the cell's type for tree, wall and tank (whatever the tank's orientation), and `empty` for every other type |
| TileRenderer.TankTileClasses | src/scripts/index.js:85-92 | a tank facing a compass direction gets exactly the classes `tile`, `tank`, orientation, in that order |
| LaserGeometry.LaserBox | src/scripts/index.js:109-133 | a north or south laser is one tile wide at `startX·50`, spans from `min(startY, endY)·50` to `(max(startY, endY) + 1)·50`; any other direction swaps the roles of the axes; both sides are always positive |
| LaserGeometry.VerticalCoverage | src/scripts/index.js:117-121 | a vertical overlay covers exactly the cells of the start column between the two rows, both ends included |
| LaserGeometry.HorizontalCoverage | src/scripts/index.js:122-127 | a horizontal overlay covers exactly the cells of the start row between the two columns, both ends included |
| LaserGeometry.EndpointsCovered | src/scripts/index.js:114-127 | the start cell is always covered; the end cell is covered exactly when it lies on the start's column (vertical) or row (horizontal) |
| LaserGeometry.SpanSymmetric | src/scripts/index.js:120-121 | exchanging `startY` and `endY` of a vertical laser, or `startX` and `endX` of a horizontal one, leaves the overlay unchanged |
| LaserGeometry.ReversedSameBox | src/scripts/index.js:109-127 | exchanging the two endpoints leaves the overlay unchanged exactly when the laser is aligned with its direction |
| GridView.GridRenderer.constructor | src/scripts/index.js:64-67 | a new renderer's target is empty |
| GridView.GridRenderer.RenderColumn | src/scripts/index.js:74-77 | one tile per cell of the column, in order, each the tile classification of that cell |
| GridView.GridRenderer.RenderLasers | src/scripts/index.js:105-135 | one overlay per laser is appended in order, each placed at that laser's box; what was there before is kept |
| GridView.GridRenderer.Render | src/scripts/index.js:69-81 | one column per grid column, then one overlay per laser, all appended in order after the existing children |
| PlayerList.Fill | src/scripts/index.js:222 | `new Array(n).fill(v)` has `n` elements, each `v` |
| PlayerList.HeartsSucc | src/scripts/index.js:222-223 | one more life puts one more heart reference in front |
| PlayerList.HeartsLength | src/scripts/index.js:222-223 | the life markup is `energy` times the length of the heart reference; zero energy gives the empty string |
| PlayerList.HeartsAdd | src/scripts/index.js:222-223 | the hearts of `a + b` lives are the hearts of `a` followed by those of `b` |
| PlayerList.HeartsText | src/scripts/index.js:222-223 | the life markup shows exactly `energy` heart glyphs and nothing else |
| PlayerList.HeartsInjective | src/scripts/index.js:222-223 | two energies give the same markup exactly when they are equal |
| PlayerList.LifeIndicator | src/scripts/index.js:222-223 | markup is produced exactly when `0 ≤ energy ≤ 2^32 − 1` (otherwise `new Array` throws); it then shows `energy` heart glyphs |
| PlayerList.EntryOf | src/scripts/index.js:206-227 | an entry exists exactly when the life markup does; its swatch style is `background-color: ` followed by the colour, its name is the player's name, and its life shows `energy` hearts |
| PlayerList.Renderable | src/scripts/index.js:200-204 | the players `render` gets through are a prefix: they all have an entry, and the first player after them has none |
| PlayerList.PlayerListRenderer.constructor | src/scripts/index.js:195-198 | a new panel is empty |
| PlayerList.PlayerListRenderer.RenderPlayer | src/scripts/index.js:206-227 | it succeeds exactly when the player has an entry; the entry is then appended, and otherwise nothing changes |
| PlayerList.PlayerListRenderer.Render | src/scripts/index.js:200-204 | the entries of the players, in order, are appended after the existing entries, up to the first player whose hearts throw; it succeeds exactly when every player is rendered |

## Left out

- `WorldRenderer3d` (src/scripts/index.js:139-192): a wrapper over THREE.js with camera, light and plane mesh. It uses floating-point aspect ratios and an unbounded `requestAnimationFrame` loop. It is not part of this model.
- DOM nodes: `document.createElement`, `setAttribute` and `appendChild` are left out. A render target is a sequence of plain values: tiles as class lists and styles, overlays as pixel boxes, panel entries as three strings. The `column`, `laser`, `player`, `color-indicator`, `player-name` and `player-life` class names of the wrapper elements are not recorded.
- `abortChildren` (src/scripts/index.js:57-61): its loop over the DOM is modelled only by its effect. The constructors start with an empty target.
- `GridView.GridRenderer.RenderLasers`: the overlay's style string is not formatted. `left: Npx; top: Npx; …` in decimal is given as the pixel box it encodes.
- `tick`, `startGameloop` and `window.onload` (src/scripts/index.js:240-252): they are network fetches and timers. They are not modelled.
- `renderWorld` (src/scripts/index.js:230-238): it only constructs objects and calls the pieces above. It is not modelled as a member. `Scenario` does the same steps with the 2D grid renderer in place of the 3D one.
- `WorldModel.World.constructor`: in JavaScript, `new World()` leaves `grid`, `players` and `lasers` undefined until `parse` runs, and rendering such a world throws. The model starts them as empty sequences, so rendering an unparsed world draws nothing instead of throwing.
- `WorldModel.World.Parse`: a position outside the `width × width` grid is a precondition. Writing `grid[x][y]` out of bounds in JavaScript either throws or adds stray array properties, and neither has a useful model.
- `WorldModel.Entity`: the numbers of the snapshot are integers here. JavaScript's fractional and non-numeric values are not modelled (a fractional `energy` or `width`, or a string `energy`, for which `new Array` builds a one-element array).
- `TileRenderer.RenderTile`: the DOMException that `classList.add` throws for an empty or whitespace-containing orientation is not modelled. Such a token is added like any other.
- `PlayerList.TextContent`: HTML decoding is modelled only for the heart reference. A player's `name`, which is assigned through `innerHTML`, is kept as raw markup.
- `PlayerList.LifeIndicator`: the engine's maximum string length is not modelled. Only the RangeError of `new Array` limits the energy.
