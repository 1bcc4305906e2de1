/**
 * Laser overlay geometry, the arithmetic inside `GridRenderer.renderLasers`
 * (src/scripts/index.js, lines 105-135). A laser is drawn as one absolutely
 * positioned rectangle spanning the cells it crosses; all values are pixels.
 */
module LaserGeometry {
  import opened Constants

  /** A laser in flight, as the snapshot gives it. */
  datatype Laser = Laser(startPos: Position, endPos: Position, direction: string)

  /** The rectangle an overlay occupies, in pixels. */
  datatype Box = Box(left: int, top: int, width: int, height: int)

  function Abs(n: int): nat {
    if n < 0 then -n else n
  }

  function Min(a: int, b: int): int {
    if a <= b then a else b
  }

  function Max(a: int, b: int): int {
    if a <= b then b else a
  }

  /** `['north', 'south'].includes(direction)`: every other direction is drawn horizontally. */
  predicate IsVertical(direction: string) {
    direction == "north" || direction == "south"
  }

  /**
   * The overlay of one laser. A vertical laser is one tile wide at the start
   * column and runs between the two rows; any other laser is one tile high at
   * the start row and runs between the two columns.
   */
  function LaserBox(l: Laser): (b: Box)
    ensures b.width > 0 && b.height > 0
    ensures IsVertical(l.direction) ==>
      b.width == TileSize && b.left == l.startPos.0 * TileSize &&
      b.top == Min(l.startPos.1, l.endPos.1) * TileSize &&
      b.top + b.height == (Max(l.startPos.1, l.endPos.1) + 1) * TileSize
    ensures !IsVertical(l.direction) ==>
      b.height == TileSize && b.top == l.startPos.1 * TileSize &&
      b.left == Min(l.startPos.0, l.endPos.0) * TileSize &&
      b.left + b.width == (Max(l.startPos.0, l.endPos.0) + 1) * TileSize
  {
    var (startX, startY) := l.startPos;
    var (endX, endY) := l.endPos;
    if IsVertical(l.direction) then
      Box(startX * TileSize, Min(startY, endY) * TileSize, TileSize, (Abs(endY - startY) + 1) * TileSize)
    else
      Box(Min(startX, endX) * TileSize, startY * TileSize, (Abs(endX - startX) + 1) * TileSize, TileSize)
  }

  /** True when the grid cell `(x, y)` lies entirely inside `b`. */
  predicate CoversCell(b: Box, x: int, y: int) {
    b.left <= x * TileSize && (x + 1) * TileSize <= b.left + b.width &&
    b.top <= y * TileSize && (y + 1) * TileSize <= b.top + b.height
  }

  /** The laser with its two endpoints exchanged. */
  function Reversed(l: Laser): Laser {
    Laser(l.endPos, l.startPos, l.direction)
  }

  /**
   * The cells a vertical overlay covers are exactly the start column between
   * the two rows, both ends included.
   */
  lemma VerticalCoverage(l: Laser, x: int, y: int)
    requires IsVertical(l.direction)
    ensures CoversCell(LaserBox(l), x, y) <==>
      x == l.startPos.0 && Min(l.startPos.1, l.endPos.1) <= y <= Max(l.startPos.1, l.endPos.1)
  {
    var b := LaserBox(l);
    if CoversCell(b, x, y) {
      assert l.startPos.0 * TileSize <= x * TileSize < (l.startPos.0 + 1) * TileSize;
      assert Min(l.startPos.1, l.endPos.1) * TileSize <= y * TileSize < (Max(l.startPos.1, l.endPos.1) + 1) * TileSize;
    }
  }

  /**
   * The cells a horizontal overlay covers are exactly the start row between
   * the two columns, both ends included.
   */
  lemma HorizontalCoverage(l: Laser, x: int, y: int)
    requires !IsVertical(l.direction)
    ensures CoversCell(LaserBox(l), x, y) <==>
      y == l.startPos.1 && Min(l.startPos.0, l.endPos.0) <= x <= Max(l.startPos.0, l.endPos.0)
  {
    var b := LaserBox(l);
    if CoversCell(b, x, y) {
      assert l.startPos.1 * TileSize <= y * TileSize < (l.startPos.1 + 1) * TileSize;
      assert Min(l.startPos.0, l.endPos.0) * TileSize <= x * TileSize < (Max(l.startPos.0, l.endPos.0) + 1) * TileSize;
    }
  }

  /**
   * The start cell is always covered; the end cell is covered exactly when
   * the laser is aligned with its direction (same column for a vertical
   * laser, same row otherwise), because the cross axis is taken from the
   * start alone.
   */
  lemma EndpointsCovered(l: Laser)
    ensures CoversCell(LaserBox(l), l.startPos.0, l.startPos.1)
    ensures CoversCell(LaserBox(l), l.endPos.0, l.endPos.1) <==>
      (if IsVertical(l.direction) then l.endPos.0 == l.startPos.0 else l.endPos.1 == l.startPos.1)
  {
    if IsVertical(l.direction) {
      VerticalCoverage(l, l.startPos.0, l.startPos.1);
      VerticalCoverage(l, l.endPos.0, l.endPos.1);
    } else {
      HorizontalCoverage(l, l.startPos.0, l.startPos.1);
      HorizontalCoverage(l, l.endPos.0, l.endPos.1);
    }
  }

  /**
   * Exchanging the two rows of a vertical laser, or the two columns of a
   * horizontal one, leaves the overlay unchanged.
   */
  lemma SpanSymmetric(l: Laser)
    ensures IsVertical(l.direction) ==>
      LaserBox(Laser((l.startPos.0, l.endPos.1), (l.endPos.0, l.startPos.1), l.direction)) == LaserBox(l)
    ensures !IsVertical(l.direction) ==>
      LaserBox(Laser((l.endPos.0, l.startPos.1), (l.startPos.0, l.endPos.1), l.direction)) == LaserBox(l)
  {
  }

  /**
   * Exchanging the endpoints leaves the overlay unchanged exactly when the
   * laser is aligned with its direction.
   */
  lemma ReversedSameBox(l: Laser)
    ensures LaserBox(Reversed(l)) == LaserBox(l) <==>
      (if IsVertical(l.direction) then l.endPos.0 == l.startPos.0 else l.endPos.1 == l.startPos.1)
  {
    if LaserBox(Reversed(l)) == LaserBox(l) {
      if IsVertical(l.direction) {
        assert l.endPos.0 * TileSize == l.startPos.0 * TileSize;
      } else {
        assert l.endPos.1 * TileSize == l.startPos.1 * TileSize;
      }
    }
  }
}
