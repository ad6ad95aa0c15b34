/**
 * Board geometry shared by both engines (src/game/Game.class.ts, and its index-based twin in
 * src/client/game.ts): whether a square exists, the precomputed distance to the board's edge in
 * each slide direction, and the conversion between squares and flat array indices.
 */
module Board {
  import opened Enums
  import opened Utils
  import opened Pieces

  /** `doesTileExist`: the square lies inside a `width` by `height` board. */
  predicate TileExists(square: BoardCoords, width: int, height: int)
  {
    !(square.file > width - 1 || square.rank > height - 1 || square.file < 0 || square.rank < 0)
  }

  /** One entry of `numSquaresToEdge`: the number of squares to the edge in each direction. */
  datatype EdgeData = EdgeData(
    north: int, south: int, west: int, east: int,
    northWest: int, southEast: int, northEast: int, southWest: int)
  {
    function Get(d: SlideDirection): int
    {
      match d
      case North => north
      case South => south
      case West => west
      case East => east
      case NorthWest => northWest
      case SouthEast => southEast
      case NorthEast => northEast
      case SouthWest => southWest
    }
  }

  function Min(a: int, b: int): int { if a <= b then a else b }

  /** The entry `precomputeMoveData` stores for the square at (`file`, `rank`). */
  function EdgeAt(rank: int, file: int, width: int, height: int): EdgeData
  {
    var numNorth := height - 1 - rank;
    var numSouth := rank;
    var numWest := file;
    var numEast := width - 1 - file;
    EdgeData(numNorth, numSouth, numWest, numEast,
             Min(numNorth, numWest), Min(numSouth, numEast), Min(numNorth, numEast), Min(numSouth, numWest))
  }

  /**
   * The edge distance is exact: from a square on the board, every step count from 0 up to the
   * stored distance stays on the board, and one step more leaves it.
   */
  lemma EdgeDistanceIsExact(square: BoardCoords, width: int, height: int, d: SlideDirection, n: int)
    requires TileExists(square, width, height)
    requires 0 <= n
    ensures var dist := EdgeAt(square.rank, square.file, width, height).Get(d);
      && dist >= 0
      && (n <= dist ==> TileExists(Add(square, Scale(SlideVector(d), n)), width, height))
      && (n == dist + 1 ==> !TileExists(Add(square, Scale(SlideVector(d), n)), width, height))
  {
  }

  /** `coordsToIndex`: row-major index of a square on a board `width` squares wide. */
  function CoordsToIndex(coords: BoardCoords, width: int): int
  {
    coords.rank * width + coords.file
  }

  /** JavaScript's `%`, which truncates toward zero (the remainder takes the dividend's sign). */
  function JsRemainder(a: int, b: int): int
    requires b > 0
  {
    if a >= 0 then a % b else -((-a) % b)
  }

  /** `indexToCoords`: file is `index % width`, rank is `Math.floor(index / width)`. */
  function IndexToCoords(index: int, width: int): BoardCoords
    requires width > 0
  {
    BoardCoords(JsRemainder(index, width), index / width)
  }

  lemma MulAtLeast(w: int, k: int)
    requires w > 0 && k >= 1
    ensures w * k >= w
  {
  }

  lemma MulMonotonic(a: int, b: int, w: int)
    requires 0 <= a <= b && w > 0
    ensures a * w <= b * w
  {
    assert b * w == a * w + (b - a) * w;
  }

  /** Euclidean division is unique: a quotient and remainder in range are the ones `/` and `%` give. */
  lemma DivModUnique(i: int, w: int, q: int, r: int)
    requires w > 0 && 0 <= r < w && i == q * w + r
    ensures i / w == q && i % w == r
  {
    var q', r' := i / w, i % w;
    assert q' * w + r' == q * w + r;
    assert (q' - q) * w == r - r';
    if q' > q {
      MulAtLeast(w, q' - q);
    } else if q' < q {
      MulAtLeast(w, q - q');
    }
  }

  /**
   * For a square of the board, converting to an index and back gives the square again, and the
   * index lies inside the `width * height` array.
   */
  lemma CoordsIndexRoundTrip(coords: BoardCoords, width: int, height: int)
    requires width > 0
    requires TileExists(coords, width, height)
    ensures IndexToCoords(CoordsToIndex(coords, width), width) == coords
    ensures 0 <= CoordsToIndex(coords, width) < width * height
  {
    DivModUnique(CoordsToIndex(coords, width), width, coords.rank, coords.file);
    MulMonotonic(coords.rank, height - 1, width);
    assert (height - 1) * width + width == width * height;
  }

  /** Every index of the array names a square of the board whose index is that index again. */
  lemma IndexCoordsRoundTrip(index: int, width: int, height: int)
    requires width > 0
    requires 0 <= index < width * height
    ensures CoordsToIndex(IndexToCoords(index, width), width) == index
    ensures TileExists(IndexToCoords(index, width), width, height)
  {
    var q, r := index / width, index % width;
    assert index == q * width + r && 0 <= r < width;
    assert JsRemainder(index, width) == r;
    assert q < height by {
      if q >= height {
        MulMonotonic(height, q, width);
      }
    }
  }
}
