/**
 * The older index-based engine of src/client/game.ts: the board is a flat array of
 * `boardWidth * boardHeight` pieces indexed by `rank * width + file`, moves are pairs of indices,
 * and the direction tables are index offsets laid out for a board 8 squares wide.
 */
module ClientGame {
  import opened Wrappers
  import opened Enums
  import opened Utils
  import opened Pieces
  import opened Board
  import opened Fen
  import GameEngine

  /** A piece of this engine: only a type and a colour; the empty square is None/None. */
  datatype ClientPiece = ClientPiece(kind: PieceType, color: PieceColor)

  /** `new Piece()`: the empty square. */
  const Empty := ClientPiece(PieceType.None, PieceColor.None)

  /** A move from one array index to another. */
  datatype IndexMove = IndexMove(startSquare: int, targetSquare: int)

  /** `Move.equals`: the start indices and the target indices agree. */
  predicate Equals(a: IndexMove, b: IndexMove)
  {
    a.startSquare == b.startSquare && a.targetSquare == b.targetSquare
  }

  /** Two moves are `equals` exactly when they are the same move. */
  lemma EqualsIsEquality(a: IndexMove, b: IndexMove)
    ensures Equals(a, b) <==> a == b
    ensures Equals(a, a) && (Equals(a, b) ==> Equals(b, a))
  {
  }

  /** The `SlideDirections` table of this engine: index offsets for a board 8 squares wide. */
  function Offset(d: SlideDirection): int
  {
    match d
    case North => 8
    case South => -8
    case West => -1
    case East => 1
    case NorthEast => 9
    case SouthWest => -9
    case SouthEast => -7
    case NorthWest => 7
  }

  /** The `KnightDirections` table of this engine. */
  const KnightOffsets: seq<int> := [17, 15, 10, 6, -6, -10, -15, -17]

  /** Each slide offset is the index of its unit step on a board 8 wide. */
  lemma SlideOffsetsFlattenWidthEight(d: SlideDirection)
    ensures Offset(d) == CoordsToIndex(SlideVector(d), 8)
  {
  }

  /** The knight offsets are the indices of the eight knight jumps on a board 8 wide. */
  lemma KnightOffsetsFlattenWidthEight()
    ensures forall o :: o in KnightOffsets <==> exists v :: v in KnightDirections && o == CoordsToIndex(v, 8)
  {
    assert KnightOffsets[0] == CoordsToIndex(KnightDirections[0], 8);
    assert KnightOffsets[1] == CoordsToIndex(KnightDirections[7], 8);
    assert KnightOffsets[2] == CoordsToIndex(KnightDirections[1], 8);
    assert KnightOffsets[3] == CoordsToIndex(KnightDirections[6], 8);
    assert KnightOffsets[4] == CoordsToIndex(KnightDirections[2], 8);
    assert KnightOffsets[5] == CoordsToIndex(KnightDirections[5], 8);
    assert KnightOffsets[6] == CoordsToIndex(KnightDirections[3], 8);
    assert KnightOffsets[7] == CoordsToIndex(KnightDirections[4], 8);
  }

  /** `isSlidingPiece` of this engine. */
  predicate IsSliding(p: ClientPiece)
  {
    p.kind == PieceType.Bishop || p.kind == PieceType.Queen || p.kind == PieceType.Rook
  }

  /**
   * `getSlidingDirections` of this engine: the four diagonals for a Bishop, all eight for a
   * Queen, the four orthogonals for a Rook, and none for any other type (the King included).
   */
  function ClientSlidingDirections(p: ClientPiece): seq<SlideDirection>
  {
    match p.kind
    case Bishop => [NorthEast, NorthWest, SouthEast, SouthWest]
    case Queen => [NorthEast, NorthWest, SouthEast, SouthWest, North, South, East, West]
    case Rook => [North, South, East, West]
    case _ => []
  }

  // ---------------------------------------------------------------------------------------------
  // The edge table

  /** The table `precomputeMoveData` fills: for each index of the board, its square's edge distances. */
  function EdgeMap(width: nat, height: nat): map<int, EdgeData>
  {
    map k | 0 <= k < width * height && width > 0 :: EdgeAt(k / width, k % width, width, height)
  }

  /** `numSquaresToEdge[index][direction]`; an index without an entry counts 0 squares. */
  function EdgeValue(edges: map<int, EdgeData>, index: int, d: SlideDirection): int
  {
    if index in edges then edges[index].Get(d) else 0
  }

  /**
   * On the table built for the board, every index of the array has an entry, holding the edge
   * distances of the square that index names.
   */
  lemma EdgeMapLookup(width: nat, height: nat, index: int, d: SlideDirection)
    requires 0 <= index < width * height
    ensures width > 0
    ensures var sq := IndexToCoords(index, width);
      EdgeValue(EdgeMap(width, height), index, d) == EdgeAt(sq.rank, sq.file, width, height).Get(d)
  {
  }

  /**
   * On a board 8 squares wide, walking `k` steps of the flat offset from an index, for `k` up to
   * the looked-up edge distance, gives the index of the square `k` coordinate steps away, and that
   * square is on the board.
   */
  lemma FlatWalkMatchesSquares(height: nat, index: int, d: SlideDirection, k: int)
    requires 0 <= index < 8 * height
    requires 0 <= k <= EdgeValue(EdgeMap(8, height), index, d)
    ensures var target := Add(IndexToCoords(index, 8), Scale(SlideVector(d), k));
      && TileExists(target, 8, height)
      && index + Offset(d) * k == CoordsToIndex(target, 8)
  {
    EdgeMapLookup(8, height, index, d);
    var sq := IndexToCoords(index, 8);
    IndexCoordsRoundTrip(index, 8, height);
    EdgeDistanceIsExact(sq, 8, height, d, k);
    SlideOffsetsFlattenWidthEight(d);
    FlatStep(sq, SlideVector(d), k);
  }

  /** `k` steps of vector `v` from `sq` move the index on a board 8 wide by `k` times the index of `v`. */
  lemma FlatStep(sq: BoardCoords, v: BoardCoords, k: int)
    ensures CoordsToIndex(Add(sq, Scale(v, k)), 8) == CoordsToIndex(sq, 8) + CoordsToIndex(v, 8) * k
  {
    assert CoordsToIndex(Add(sq, Scale(v, k)), 8) == (sq.rank + v.rank * k) * 8 + sq.file + v.file * k;
    assert (sq.rank + v.rank * k) * 8 == sq.rank * 8 + (v.rank * 8) * k;
    assert CoordsToIndex(v, 8) * k == (v.rank * 8 + v.file) * k;
  }

  // ---------------------------------------------------------------------------------------------
  // The move generators, as functions of the board's contents

  /** `this.board[index]`: the piece there, or nothing outside the array. */
  function Lookup(board: seq<ClientPiece>, index: int): Option<ClientPiece>
  {
    if 0 <= index < |board| then Some(board[index]) else Null
  }

  /** The index `k` offsets away from `start`. */
  function Step(start: int, offset: int, k: int): int
  {
    start + offset * k
  }

  /**
   * The sliding walk from loop counter `n` below `max`: the target is `n + 1` offsets away; the
   * walk ends outside the array or at one of the mover's pieces, and right after an opponent's.
   */
  function SlideRay(board: seq<ClientPiece>, color: PieceColor, start: int, offset: int, n: int, max: int): seq<IndexMove>
    decreases max - n
  {
    if n >= max then []
    else
      var target := Step(start, offset, n + 1);
      var occupant := Lookup(board, target);
      if occupant.Null? || occupant.value.color == color then []
      else
        [IndexMove(start, target)]
        + (if occupant.value.color == InvertColor(color) then [] else SlideRay(board, color, start, offset, n + 1, max))
  }

  /** The walks toward `dirs`, one after the other. */
  function DirectionsWalks(board: seq<ClientPiece>, color: PieceColor, edges: map<int, EdgeData>, start: int, dirs: seq<SlideDirection>): seq<IndexMove>
  {
    if dirs == [] then []
    else
      var d := dirs[|dirs| - 1];
      DirectionsWalks(board, color, edges, start, dirs[..|dirs| - 1]) + SlideRay(board, color, start, Offset(d), 0, EdgeValue(edges, start, d))
  }

  /** `generateSlidingMoves`. */
  function SlidingMovesAt(board: seq<ClientPiece>, color: PieceColor, edges: map<int, EdgeData>, start: int, piece: ClientPiece): seq<IndexMove>
  {
    DirectionsWalks(board, color, edges, start, ClientSlidingDirections(piece))
  }

  /** A pawn's direction: North for White, South otherwise. */
  function ForwardOf(color: PieceColor): SlideDirection
  {
    if color == PieceColor.White then SlideDirection.North else SlideDirection.South
  }

  /** Is the index on the pawn start rank of `color` (rank 1 for White, `height - 2` otherwise)? */
  predicate OnStartRank(color: PieceColor, start: int, width: nat, height: nat)
  {
    var rank := if width > 0 then start / width else 0;
    if color == PieceColor.White then rank == 1 else rank == height - 2
  }

  /** The pawn's step bound: 2 on its start rank, else 1, and never beyond the edge. */
  function PawnReach(color: PieceColor, edges: map<int, EdgeData>, start: int, width: nat, height: nat): int
  {
    Min(if OnStartRank(color, start, width, height) then 2 else 1, EdgeValue(edges, start, ForwardOf(color)))
  }

  /**
   * The pawn's forward walk from loop counter `n` below `max`: the walk ends outside the array or
   * at a square whose type is not None, and after a None-typed square of the opponent's colour.
   */
  function PawnWalk(board: seq<ClientPiece>, color: PieceColor, start: int, offset: int, n: int, max: int): seq<IndexMove>
    decreases max - n
  {
    if n >= max then []
    else
      var target := Step(start, offset, n + 1);
      var occupant := Lookup(board, target);
      if occupant.Null? || occupant.value.kind != PieceType.None then []
      else
        [IndexMove(start, target)]
        + (if occupant.value.color == InvertColor(color) then [] else PawnWalk(board, color, start, offset, n + 1, max))
  }

  /** White pawns take toward the North-East and North-West, the others toward the South. */
  function TakeDirections(color: PieceColor): seq<SlideDirection>
  {
    if color == PieceColor.White then [SlideDirection.NorthEast, SlideDirection.NorthWest]
    else [SlideDirection.SouthEast, SlideDirection.SouthWest]
  }

  /** The diagonal takes toward `dirs`: one offset away, onto an opponent's piece. */
  function PawnTakesAt(board: seq<ClientPiece>, color: PieceColor, start: int, dirs: seq<SlideDirection>): seq<IndexMove>
  {
    if dirs == [] then []
    else
      var target := start + Offset(dirs[|dirs| - 1]);
      var occupant := Lookup(board, target);
      PawnTakesAt(board, color, start, dirs[..|dirs| - 1])
        + (if occupant.Some? && occupant.value.color == InvertColor(color) then [IndexMove(start, target)] else [])
  }

  /** `generatePawnMoves`: the forward walk, then the diagonal takes. */
  function PawnMovesAt(board: seq<ClientPiece>, color: PieceColor, edges: map<int, EdgeData>, start: int, width: nat, height: nat): seq<IndexMove>
  {
    PawnWalk(board, color, start, Offset(ForwardOf(color)), 0, PawnReach(color, edges, start, width, height))
      + PawnTakesAt(board, color, start, TakeDirections(color))
  }

  /** The knight jumps by `offsets`: onto an index of the array not holding one of the mover's pieces. */
  function KnightJumps(board: seq<ClientPiece>, color: PieceColor, start: int, offsets: seq<int>): seq<IndexMove>
  {
    if offsets == [] then []
    else
      var target := start + offsets[|offsets| - 1];
      var occupant := Lookup(board, target);
      KnightJumps(board, color, start, offsets[..|offsets| - 1])
        + (if occupant.Some? && occupant.value.color != color then [IndexMove(start, target)] else [])
  }

  /** The moves `generateMoves` asks of the square `start`: none unless it holds a piece of `color`. */
  function SquareMoves(board: seq<ClientPiece>, color: PieceColor, edges: map<int, EdgeData>, width: nat, height: nat, start: int): seq<IndexMove>
  {
    if !(0 <= start < |board|) || board[start].color != color then []
    else
      var piece := board[start];
      if IsSliding(piece) then SlidingMovesAt(board, color, edges, start, piece)
      else if piece.kind == PieceType.Pawn then PawnMovesAt(board, color, edges, start, width, height)
      else if piece.kind == PieceType.Knight then KnightJumps(board, color, start, KnightOffsets)
      else []
  }

  /** The moves of the squares below `count`, in index order. */
  function MovesBelow(board: seq<ClientPiece>, color: PieceColor, edges: map<int, EdgeData>, width: nat, height: nat, count: int): seq<IndexMove>
    decreases count
  {
    if count <= 0 then []
    else MovesBelow(board, color, edges, width, height, count - 1) + SquareMoves(board, color, edges, width, height, count - 1)
  }

  /** `generateMoves`: the moves of every square of the board, in index order. */
  function AllIndexMoves(board: seq<ClientPiece>, color: PieceColor, edges: map<int, EdgeData>, width: nat, height: nat): seq<IndexMove>
  {
    MovesBelow(board, color, edges, width, height, width * height)
  }

  // ---------------------------------------------------------------------------------------------
  // What the generators produce

  /** The walk may pass the index: it is in the array and holds neither side's piece. */
  predicate SlidePasses(board: seq<ClientPiece>, color: PieceColor, index: int)
  {
    0 <= index < |board| && board[index].color != color && board[index].color != InvertColor(color)
  }

  /** The walk may stop on the index: it is in the array and does not hold one of the mover's pieces. */
  predicate SlideLands(board: seq<ClientPiece>, color: PieceColor, index: int)
  {
    0 <= index < |board| && board[index].color != color
  }

  /** Step `k` is reached from counter `n`: it lands, and every step after `n` before it passes. */
  predicate SlideReaches(board: seq<ClientPiece>, color: PieceColor, start: int, offset: int, n: int, k: int)
  {
    && SlideLands(board, color, Step(start, offset, k))
    && forall j :: n < j < k ==> SlidePasses(board, color, Step(start, offset, j))
  }

  /**
   * The sliding walk holds exactly the moves from `start` to step `k`, for `n < k <= max`, such
   * that step `k` is on the array and free of the mover's pieces and every earlier step is on the
   * array and empty of both sides' pieces.
   */
  lemma {:induction false} SlideRayExact(board: seq<ClientPiece>, color: PieceColor, start: int, offset: int, n: int, max: int, m: IndexMove)
    ensures m in SlideRay(board, color, start, offset, n, max) <==>
      m.startSquare == start
      && exists k :: n < k <= max && m.targetSquare == Step(start, offset, k) && SlideReaches(board, color, start, offset, n, k)
    decreases max - n
  {
    if n < max {
      var target := Step(start, offset, n + 1);
      SlideRayExact(board, color, start, offset, n + 1, max, m);
      if !SlideLands(board, color, target) {
        forall k | n < k <= max && SlideReaches(board, color, start, offset, n, k)
          ensures false
        {
        }
      } else {
        if m in SlideRay(board, color, start, offset, n, max) && m != IndexMove(start, target) {
          var k :| n + 1 < k <= max && m.targetSquare == Step(start, offset, k) && SlideReaches(board, color, start, offset, n + 1, k);
          assert SlideReaches(board, color, start, offset, n, k);
        }
        if m.startSquare == start && exists k :: n < k <= max && m.targetSquare == Step(start, offset, k) && SlideReaches(board, color, start, offset, n, k) {
          var k :| n < k <= max && m.targetSquare == Step(start, offset, k) && SlideReaches(board, color, start, offset, n, k);
          if k > n + 1 {
            assert SlidePasses(board, color, target);
            assert SlideReaches(board, color, start, offset, n + 1, k);
          }
        }
      }
    }
  }

  /** The pawn may pass the index: it is in the array, typed None and not of the opponent's colour. */
  predicate PawnPasses(board: seq<ClientPiece>, color: PieceColor, index: int)
  {
    0 <= index < |board| && board[index].kind == PieceType.None && board[index].color != InvertColor(color)
  }

  /** The pawn may stop on the index: it is in the array and typed None. */
  predicate PawnLands(board: seq<ClientPiece>, index: int)
  {
    0 <= index < |board| && board[index].kind == PieceType.None
  }

  /** Pawn step `k` is reached from counter `n`: it lands, and every step after `n` before it passes. */
  predicate PawnReaches(board: seq<ClientPiece>, color: PieceColor, start: int, offset: int, n: int, k: int)
  {
    && PawnLands(board, Step(start, offset, k))
    && forall j :: n < j < k ==> PawnPasses(board, color, Step(start, offset, j))
  }

  /**
   * The pawn's walk holds exactly the moves from `start` to step `k`, for `n < k <= max`, such that
   * step `k` is a None-typed square of the array and every earlier step also is and does not
   * carry the opponent's colour.
   */
  lemma {:induction false} PawnWalkExact(board: seq<ClientPiece>, color: PieceColor, start: int, offset: int, n: int, max: int, m: IndexMove)
    ensures m in PawnWalk(board, color, start, offset, n, max) <==>
      m.startSquare == start
      && exists k :: n < k <= max && m.targetSquare == Step(start, offset, k) && PawnReaches(board, color, start, offset, n, k)
    decreases max - n
  {
    if n < max {
      var target := Step(start, offset, n + 1);
      PawnWalkExact(board, color, start, offset, n + 1, max, m);
      if !PawnLands(board, target) {
        forall k | n < k <= max && PawnReaches(board, color, start, offset, n, k)
          ensures false
        {
        }
      } else {
        if m in PawnWalk(board, color, start, offset, n, max) && m != IndexMove(start, target) {
          var k :| n + 1 < k <= max && m.targetSquare == Step(start, offset, k) && PawnReaches(board, color, start, offset, n + 1, k);
          assert PawnReaches(board, color, start, offset, n, k);
        }
        if m.startSquare == start && exists k :: n < k <= max && m.targetSquare == Step(start, offset, k) && PawnReaches(board, color, start, offset, n, k) {
          var k :| n < k <= max && m.targetSquare == Step(start, offset, k) && PawnReaches(board, color, start, offset, n, k);
          if k > n + 1 {
            assert PawnPasses(board, color, target);
            assert PawnReaches(board, color, start, offset, n + 1, k);
          }
        }
      }
    }
  }

  /** The takes are exactly the moves one offset of `dirs` away onto an opponent's piece. */
  lemma {:induction false} PawnTakesExact(board: seq<ClientPiece>, color: PieceColor, start: int, dirs: seq<SlideDirection>, m: IndexMove)
    ensures m in PawnTakesAt(board, color, start, dirs) <==>
      m.startSquare == start && 0 <= m.targetSquare < |board| && board[m.targetSquare].color == InvertColor(color)
      && exists d :: d in dirs && m.targetSquare == start + Offset(d)
  {
    if dirs != [] {
      var init := dirs[..|dirs| - 1];
      PawnTakesExact(board, color, start, init, m);
      assert dirs == init + [dirs[|dirs| - 1]];
    }
  }

  /** The jumps are exactly the moves one offset of `offsets` away onto an array square without a piece of the mover. */
  lemma {:induction false} KnightJumpsExact(board: seq<ClientPiece>, color: PieceColor, start: int, offsets: seq<int>, m: IndexMove)
    ensures m in KnightJumps(board, color, start, offsets) <==>
      m.startSquare == start && 0 <= m.targetSquare < |board| && board[m.targetSquare].color != color
      && m.targetSquare - start in offsets
  {
    if offsets != [] {
      var init := offsets[..|offsets| - 1];
      KnightJumpsExact(board, color, start, init, m);
      assert offsets == init + [offsets[|offsets| - 1]];
    }
  }

  /** The sliding moves are the union of the walks toward each direction, up to its edge distance. */
  lemma {:induction false} DirectionsWalksExact(board: seq<ClientPiece>, color: PieceColor, edges: map<int, EdgeData>, start: int, dirs: seq<SlideDirection>, m: IndexMove)
    ensures m in DirectionsWalks(board, color, edges, start, dirs) <==>
      exists d :: d in dirs && m in SlideRay(board, color, start, Offset(d), 0, EdgeValue(edges, start, d))
  {
    if dirs != [] {
      var init := dirs[..|dirs| - 1];
      DirectionsWalksExact(board, color, edges, start, init, m);
      assert dirs == init + [dirs[|dirs| - 1]];
    }
  }

  /**
   * Every move generated for a square starts there, on a piece of the mover, and ends on another
   * square of the array that holds none of the mover's pieces, or (a pawn's push, which looks only
   * at the type) on a square typed None.
   */
  lemma SquareMovesSound(board: seq<ClientPiece>, color: PieceColor, edges: map<int, EdgeData>, width: nat, height: nat, start: int, m: IndexMove)
    requires m in SquareMoves(board, color, edges, width, height, start)
    ensures m.startSquare == start && 0 <= start < |board| && board[start].color == color
    ensures 0 <= m.targetSquare < |board|
    ensures board[m.targetSquare].color != color || board[m.targetSquare].kind == PieceType.None
    ensures m.targetSquare != start
  {
    var piece := board[start];
    if IsSliding(piece) {
      DirectionsWalksExact(board, color, edges, start, ClientSlidingDirections(piece), m);
      var d :| d in ClientSlidingDirections(piece) && m in SlideRay(board, color, start, Offset(d), 0, EdgeValue(edges, start, d));
      SlideRayExact(board, color, start, Offset(d), 0, EdgeValue(edges, start, d), m);
    } else if piece.kind == PieceType.Pawn {
      var offset := Offset(ForwardOf(color));
      var max := PawnReach(color, edges, start, width, height);
      if m in PawnWalk(board, color, start, offset, 0, max) {
        PawnWalkExact(board, color, start, offset, 0, max, m);
        var k :| 0 < k <= max && m.targetSquare == Step(start, offset, k) && PawnReaches(board, color, start, offset, 0, k);
        assert offset * k != 0;
      } else {
        PawnTakesExact(board, color, start, TakeDirections(color), m);
        assert board[m.targetSquare].color == InvertColor(color);
      }
    } else {
      KnightJumpsExact(board, color, start, KnightOffsets, m);
    }
  }

  lemma SquareMovesStart(board: seq<ClientPiece>, color: PieceColor, edges: map<int, EdgeData>, width: nat, height: nat, start: int, m: IndexMove)
    requires m in SquareMoves(board, color, edges, width, height, start)
    ensures m.startSquare == start
  {
    SquareMovesSound(board, color, edges, width, height, start, m);
  }

  /** The moves below `count` are those of the squares below `count`. */
  lemma MovesBelowExact(board: seq<ClientPiece>, color: PieceColor, edges: map<int, EdgeData>, width: nat, height: nat, count: int, m: IndexMove)
    ensures m in MovesBelow(board, color, edges, width, height, count) <==>
      0 <= m.startSquare < count && m in SquareMoves(board, color, edges, width, height, m.startSquare)
  {
    var f := s => SquareMoves(board, color, edges, width, height, s);
    MovesBelowConcat(board, color, edges, width, height, f, count);
    ConcatBelowMember(f, count, m);
    if m in MovesBelow(board, color, edges, width, height, count) {
      var s :| 0 <= s < count && m in f(s);
      SquareMovesStart(board, color, edges, width, height, s, m);
    }
  }

  /** The concatenation of `f(0)`, ..., `f(count - 1)`. */
  function ConcatBelow<U>(f: int -> seq<U>, count: int): seq<U>
    decreases count
  {
    if count <= 0 then [] else ConcatBelow(f, count - 1) + f(count - 1)
  }

  /** An element of `ConcatBelow(f, count)` is one of some `f(s)` with `s` below `count`, and conversely. */
  lemma {:induction false} ConcatBelowMember<U>(f: int -> seq<U>, count: int, y: U)
    ensures y in ConcatBelow(f, count) <==> exists s :: 0 <= s < count && y in f(s)
    decreases count
  {
    if count > 0 {
      ConcatBelowMember(f, count - 1, y);
    }
  }

  /** `MovesBelow` concatenates the per-square move lists. */
  lemma {:induction false} MovesBelowConcat(board: seq<ClientPiece>, color: PieceColor, edges: map<int, EdgeData>, width: nat, height: nat,
                                             f: int -> seq<IndexMove>, count: int)
    requires forall s :: f(s) == SquareMoves(board, color, edges, width, height, s)
    ensures MovesBelow(board, color, edges, width, height, count) == ConcatBelow(f, count)
    decreases count
  {
    if count > 0 {
      MovesBelowConcat(board, color, edges, width, height, f, count - 1);
      var here := SquareMoves(board, color, edges, width, height, count - 1);
      assert MovesBelow(board, color, edges, width, height, count) == MovesBelow(board, color, edges, width, height, count - 1) + here;
      assert ConcatBelow(f, count) == ConcatBelow(f, count - 1) + here;
    }
  }

  /**
   * `generateMoves` yields exactly the moves its per-piece generators produce for the squares of
   * the board; each starts on a piece of the mover and ends on another array square holding none
   * of the mover's pieces or typed None.
   */
  lemma AllIndexMovesSound(board: seq<ClientPiece>, color: PieceColor, edges: map<int, EdgeData>, width: nat, height: nat, m: IndexMove)
    ensures m in AllIndexMoves(board, color, edges, width, height) <==>
      0 <= m.startSquare < width * height && m in SquareMoves(board, color, edges, width, height, m.startSquare)
    ensures m in AllIndexMoves(board, color, edges, width, height) ==>
      && 0 <= m.startSquare < |board| && board[m.startSquare].color == color
      && 0 <= m.targetSquare < |board| && m.startSquare != m.targetSquare
      && (board[m.targetSquare].color != color || board[m.targetSquare].kind == PieceType.None)
  {
    MovesBelowExact(board, color, edges, width, height, width * height, m);
    if m in AllIndexMoves(board, color, edges, width, height) {
      SquareMovesSound(board, color, edges, width, height, m.startSquare, m);
    }
  }

  /** A board with no piece of the mover's colour gives it no moves. */
  lemma {:induction false} NoPiecesNoMoves(board: seq<ClientPiece>, color: PieceColor, edges: map<int, EdgeData>, width: nat, height: nat, count: int)
    requires forall i :: 0 <= i < |board| ==> board[i].color != color
    ensures MovesBelow(board, color, edges, width, height, count) == []
    decreases count
  {
    if count > 0 {
      NoPiecesNoMoves(board, color, edges, width, height, count - 1);
    }
  }

  /**
   * The knight table has no wrap-around check: on an 8 by 8 board a knight on index 7 (file 7,
   * rank 0) may jump to index 17, which is file 1 of rank 2, six files away.
   */
  lemma KnightJumpWrapsAround()
    ensures IndexMove(7, 17) in KnightJumps(seq(64, _ => Empty), PieceColor.White, 7, KnightOffsets)
    ensures IndexToCoords(7, 8) == BoardCoords(7, 0) && IndexToCoords(17, 8) == BoardCoords(1, 2)
  {
    KnightJumpsExact(seq(64, _ => Empty), PieceColor.White, 7, KnightOffsets, IndexMove(7, 17));
    assert 17 - 7 == KnightOffsets[2];
  }

  // ---------------------------------------------------------------------------------------------
  // Loading a position

  /** One write of `loadFEN`: the piece at index `rank * width + file`, when that index is in the array. */
  function Place(board: seq<ClientPiece>, pl: Placement, width: int): (r: seq<ClientPiece>)
    ensures |r| == |board|
  {
    var k := CoordsToIndex(pl.square, width);
    if 0 <= k < |board| then board[k := ClientPiece(pl.kind, pl.color)] else board
  }

  /** The writes of `loadFEN`, in reading order. */
  function PlaceAll(board: seq<ClientPiece>, placements: seq<Placement>, width: int): (r: seq<ClientPiece>)
    ensures |r| == |board|
  {
    if placements == [] then board
    else Place(PlaceAll(board, DropLast(placements), width), Last(placements), width)
  }

  /** After the writes, a square no placement names keeps what it held. */
  lemma {:induction false} PlaceAllUnwritten(board: seq<ClientPiece>, placements: seq<Placement>, width: int, k: int)
    requires 0 <= k < |board|
    requires forall i :: 0 <= i < |placements| ==> CoordsToIndex(placements[i].square, width) != k
    ensures PlaceAll(board, placements, width)[k] == board[k]
    decreases |placements|
  {
    if placements != [] {
      var init := DropLast(placements);
      assert forall i :: 0 <= i < |init| ==> init[i] == placements[i];
      PlaceAllUnwritten(board, init, width, k);
    }
  }

  /** After the writes, a square holds the piece of the last placement naming it. */
  lemma {:induction false} PlaceAllLastWins(board: seq<ClientPiece>, placements: seq<Placement>, width: int, k: int, i: int)
    requires 0 <= k < |board| && 0 <= i < |placements| && CoordsToIndex(placements[i].square, width) == k
    requires forall j :: i < j < |placements| ==> CoordsToIndex(placements[j].square, width) != k
    ensures PlaceAll(board, placements, width)[k] == ClientPiece(placements[i].kind, placements[i].color)
    decreases |placements|
  {
    var init := DropLast(placements);
    if i < |init| {
      assert forall j :: i < j < |init| ==> init[j] == placements[j];
      assert init[i] == placements[i];
      PlaceAllLastWins(board, init, width, k, i);
    }
  }

  /** The entries `precomputeMoveData` has written before reaching (`file`, `rank`), file by file. */
  predicate Filled(k: int, width: nat, height: nat, file: int, rank: int)
  {
    width > 0 && 0 <= k < width * height && (k % width < file || (k % width == file && k / width < rank))
  }

  /** Every index of the array lies on a rank of the board. */
  lemma RanksBelowHeight(width: nat, height: nat)
    requires width > 0
    ensures forall k :: 0 <= k < width * height ==> k / width < height
  {
    forall k | 0 <= k < width * height
      ensures k / width < height
    {
      IndexCoordsRoundTrip(k, width, height);
    }
  }

  /** Writing square (`file`, `rank`) extends the filled entries by exactly its index. */
  lemma FilledStep(width: nat, height: nat, file: int, rank: int)
    requires 0 <= file < width && 0 <= rank < height
    ensures var key := rank * width + file;
      && 0 <= key < width * height && key / width == rank && key % width == file
      && forall k :: Filled(k, width, height, file, rank + 1) <==> (Filled(k, width, height, file, rank) || k == key)
  {
    var key := rank * width + file;
    DivModUnique(key, width, rank, file);
    MulMonotonic(rank, height - 1, width);
    assert (height - 1) * width + width == width * height;
    assert 0 <= key < width * height;
    forall k | Filled(k, width, height, file, rank + 1) && !Filled(k, width, height, file, rank)
      ensures k == key
    {
      var q := k / width;
      assert q == rank && k % width == file;
      assert k == q * width + k % width;
    }
    assert Filled(key, width, height, file, rank + 1);
  }

  /** Once every rank of a file is written, the next file starts with the same entries. */
  lemma FilledNextFile(width: nat, height: nat, file: int)
    requires width > 0
    ensures forall k :: Filled(k, width, height, file, height) <==> Filled(k, width, height, file + 1, 0)
  {
    RanksBelowHeight(width, height);
  }

  /** Reading character `i` of the field adds its placement, if it places a piece. */
  lemma PlacementsStep(fen: string, i: nat, height: int)
    requires i < |fen|
    ensures CursorAfter(fen[..i + 1], height) == Advance(CursorAfter(fen[..i], height), fen[i])
    ensures Placements(fen[..i + 1], height) == Placements(fen[..i], height)
      + (if PlacesPiece(fen[i]) then [PlacementAt(CursorAfter(fen[..i], height), fen[i])] else [])
  {
    assert DropLast(fen[..i + 1]) == fen[..i] && Last(fen[..i + 1]) == fen[i];
  }

  /** Writing one more placement is one more `Place`. */
  lemma PlaceAllSnoc(board: seq<ClientPiece>, placements: seq<Placement>, pl: Placement, width: int)
    ensures PlaceAll(board, placements + [pl], width) == Place(PlaceAll(board, placements, width), pl, width)
  {
    assert DropLast(placements + [pl]) == placements && Last(placements + [pl]) == pl;
  }

  // ---------------------------------------------------------------------------------------------
  // The Game object

  class ClientGame {
    var board: array<ClientPiece>
    var colorToMove: PieceColor
    const boardWidth: nat
    const boardHeight: nat
    var legalMoves: seq<IndexMove>
    var numSquaresToEdge: map<int, EdgeData>

    /**
     * The object's invariant: the array has a square per index, a side is to move, the edge table
     * is the one built for the board, and the legal moves are those of the current position.
     */
    predicate Valid()
      reads this, board
    {
      && board.Length == boardWidth * boardHeight
      && (colorToMove == PieceColor.White || colorToMove == PieceColor.Black)
      && numSquaresToEdge == EdgeMap(boardWidth, boardHeight)
      && legalMoves == AllIndexMoves(board[..], colorToMove, numSquaresToEdge, boardWidth, boardHeight)
    }

    /** `tryMovePiece` carries out the move: two distinct squares, the mover's piece, and a listed move. */
    predicate Accepts(requested: IndexMove)
      reads this, board
    {
      && requested.startSquare != requested.targetSquare
      && 0 <= requested.startSquare < board.Length
      && board[requested.startSquare].color == colorToMove
      && exists i :: 0 <= i < |legalMoves| && Equals(legalMoves[i], requested)
    }

    /** An empty board of the given size, White to move, with its edge table. */
    constructor(boardWidth: nat, boardHeight: nat)
      ensures Valid() && fresh(board)
      ensures this.boardWidth == boardWidth && this.boardHeight == boardHeight
      ensures board[..] == seq(boardWidth * boardHeight, _ => Empty)
      ensures colorToMove == PieceColor.White && legalMoves == []
    {
      this.boardWidth := boardWidth;
      this.boardHeight := boardHeight;
      board := new ClientPiece[boardWidth * boardHeight](_ => Empty);
      legalMoves := [];
      colorToMove := PieceColor.White;
      numSquaresToEdge := map[];
      new;
      PrecomputeMoveData();
      NoPiecesNoMoves(board[..], colorToMove, numSquaresToEdge, boardWidth, boardHeight, boardWidth * boardHeight);
    }

    /** `precomputeMoveData`: the edge distances of every square, stored under its index. */
    method PrecomputeMoveData()
      modifies this`numSquaresToEdge
      ensures numSquaresToEdge == EdgeMap(boardWidth, boardHeight)
    {
      numSquaresToEdge := map[];
      var file := 0;
      while file < boardWidth
        invariant 0 <= file <= boardWidth
        invariant forall k :: k in numSquaresToEdge <==> Filled(k, boardWidth, boardHeight, file, 0)
        invariant forall k :: k in numSquaresToEdge ==>
          boardWidth > 0 && numSquaresToEdge[k] == EdgeAt(k / boardWidth, k % boardWidth, boardWidth, boardHeight)
      {
        var rank := 0;
        while rank < boardHeight
          invariant 0 <= rank <= boardHeight
          invariant forall k :: k in numSquaresToEdge <==> Filled(k, boardWidth, boardHeight, file, rank)
          invariant forall k :: k in numSquaresToEdge ==>
            boardWidth > 0 && numSquaresToEdge[k] == EdgeAt(k / boardWidth, k % boardWidth, boardWidth, boardHeight)
        {
          var squareIndex := rank * boardWidth + file;
          FilledStep(boardWidth, boardHeight, file, rank);
          numSquaresToEdge := numSquaresToEdge[squareIndex := EdgeAt(rank, file, boardWidth, boardHeight)];
          rank := rank + 1;
        }
        FilledNextFile(boardWidth, boardHeight, file);
        file := file + 1;
      }
      assert forall k :: k in numSquaresToEdge <==> k in EdgeMap(boardWidth, boardHeight);
    }

    /** `generateMoves`: the moves of the side to move, square by square in index order. */
    method GenerateMoves()
      requires board.Length == boardWidth * boardHeight
      modifies this`legalMoves
      ensures legalMoves == AllIndexMoves(board[..], colorToMove, numSquaresToEdge, boardWidth, boardHeight)
    {
      legalMoves := [];
      var startSquare := 0;
      while startSquare < boardWidth * boardHeight
        invariant 0 <= startSquare <= boardWidth * boardHeight
        invariant legalMoves == MovesBelow(board[..], colorToMove, numSquaresToEdge, boardWidth, boardHeight, startSquare)
      {
        GenerateSquareMoves(startSquare);
        startSquare := startSquare + 1;
      }
    }

    /** One pass of the `generateMoves` loop: the generator the piece on `startSquare` calls for. */
    method GenerateSquareMoves(startSquare: int)
      requires 0 <= startSquare < board.Length
      modifies this`legalMoves
      ensures legalMoves == old(legalMoves) + SquareMoves(board[..], colorToMove, numSquaresToEdge, boardWidth, boardHeight, startSquare)
    {
      var piece := board[startSquare];
      if piece.color == colorToMove {
        if IsSliding(piece) {
          GenerateSlidingMoves(startSquare, piece);
        } else if piece.kind == PieceType.Pawn {
          GeneratePawnMoves(startSquare);
        } else if piece.kind == PieceType.Knight {
          GenerateKnightMoves(startSquare);
        }
      }
    }

    /** `generateSlidingMoves`: the walks toward each of the piece's directions. */
    method GenerateSlidingMoves(startSquare: int, piece: ClientPiece)
      modifies this`legalMoves
      ensures legalMoves == old(legalMoves) + SlidingMovesAt(board[..], colorToMove, numSquaresToEdge, startSquare, piece)
    {
      var directions := ClientSlidingDirections(piece);
      SlideInDirections(startSquare, directions);
    }

    /** The `forEach` over the directions of `generateSlidingMoves`. */
    method SlideInDirections(startSquare: int, directions: seq<SlideDirection>)
      modifies this`legalMoves
      ensures legalMoves == old(legalMoves) + DirectionsWalks(board[..], colorToMove, numSquaresToEdge, startSquare, directions)
    {
      var i := 0;
      while i < |directions|
        invariant 0 <= i <= |directions|
        invariant legalMoves == old(legalMoves) + DirectionsWalks(board[..], colorToMove, numSquaresToEdge, startSquare, directions[..i])
      {
        assert directions[..i + 1][..i] == directions[..i];
        SlideToward(startSquare, directions[i]);
        i := i + 1;
      }
      assert directions[..|directions|] == directions;
    }

    /** The walk toward one direction, for as many squares as the edge table allows. */
    method SlideToward(startSquare: int, direction: SlideDirection)
      modifies this`legalMoves
      ensures legalMoves == old(legalMoves)
        + SlideRay(board[..], colorToMove, startSquare, Offset(direction), 0, EdgeValue(numSquaresToEdge, startSquare, direction))
    {
      var maxDistance := EdgeValue(numSquaresToEdge, startSquare, direction);
      var offset := Offset(direction);
      ghost var full := SlideRay(board[..], colorToMove, startSquare, offset, 0, maxDistance);
      var n := 0;
      var goOn := true;
      while n < maxDistance && goOn
        invariant old(legalMoves) + full
          == legalMoves + if goOn then SlideRay(board[..], colorToMove, startSquare, offset, n, maxDistance) else []
        decreases maxDistance - n
      {
        var step;
        step, goOn := RayStep(startSquare, offset, n, maxDistance);
        legalMoves := legalMoves + step;
        n := n + 1;
      }
    }

    /**
     * Step `n + 1` of a walk: it stops without a move off the array or at one of the mover's own
     * pieces; otherwise the move there, after which the walk goes on unless it took a piece.
     */
    method RayStep(startSquare: int, offset: int, n: int, maxDistance: int) returns (step: seq<IndexMove>, goOn: bool)
      requires n < maxDistance
      ensures SlideRay(board[..], colorToMove, startSquare, offset, n, maxDistance)
        == step + if goOn then SlideRay(board[..], colorToMove, startSquare, offset, n + 1, maxDistance) else []
    {
      var targetSquare := startSquare + offset * (n + 1);
      assert targetSquare == Step(startSquare, offset, n + 1);
      if !(0 <= targetSquare < board.Length) || board[targetSquare].color == colorToMove {
        return [], false;
      }
      step := [IndexMove(startSquare, targetSquare)];
      goOn := board[targetSquare].color != InvertColor(colorToMove);
    }

    /** `generatePawnMoves`: the forward push, then the diagonal takes. */
    method GeneratePawnMoves(startSquare: int)
      modifies this`legalMoves
      ensures legalMoves == old(legalMoves) + PawnMovesAt(board[..], colorToMove, numSquaresToEdge, startSquare, boardWidth, boardHeight)
    {
      var direction := if colorToMove == PieceColor.White then SlideDirection.North else SlideDirection.South;
      var rank := if boardWidth > 0 then startSquare / boardWidth else 0;
      var isOnStartRank := if colorToMove == PieceColor.White then rank == 1 else rank == boardHeight - 2;
      var moveDistance := Min(if isOnStartRank then 2 else 1, EdgeValue(numSquaresToEdge, startSquare, direction));
      assert moveDistance == PawnReach(colorToMove, numSquaresToEdge, startSquare, boardWidth, boardHeight);
      PawnPush(startSquare, Offset(direction), moveDistance);
      var takingDirections := TakeDirections(colorToMove);
      PawnTakes(startSquare, takingDirections);
    }

    /** The forward loop of `generatePawnMoves`: onto None-typed squares, stopping after an opponent-coloured one. */
    method PawnPush(startSquare: int, offset: int, moveDistance: int)
      modifies this`legalMoves
      ensures legalMoves == old(legalMoves) + PawnWalk(board[..], colorToMove, startSquare, offset, 0, moveDistance)
    {
      ghost var full := PawnWalk(board[..], colorToMove, startSquare, offset, 0, moveDistance);
      var n := 0;
      var goOn := true;
      while n < moveDistance && goOn
        invariant old(legalMoves) + full
          == legalMoves + if goOn then PawnWalk(board[..], colorToMove, startSquare, offset, n, moveDistance) else []
        decreases moveDistance - n
      {
        var step;
        step, goOn := PushStep(startSquare, offset, n, moveDistance);
        legalMoves := legalMoves + step;
        n := n + 1;
      }
    }

    /**
     * Step `n + 1` of the forward loop: it stops without a move off the array or on a square whose
     * type is not None; otherwise the move there, after which the loop goes on unless the square's
     * colour is the opponent's.
     */
    method PushStep(startSquare: int, offset: int, n: int, moveDistance: int) returns (step: seq<IndexMove>, goOn: bool)
      requires n < moveDistance
      ensures PawnWalk(board[..], colorToMove, startSquare, offset, n, moveDistance)
        == step + if goOn then PawnWalk(board[..], colorToMove, startSquare, offset, n + 1, moveDistance) else []
    {
      var targetSquare := startSquare + offset * (n + 1);
      assert targetSquare == Step(startSquare, offset, n + 1);
      if !(0 <= targetSquare < board.Length) || board[targetSquare].kind != PieceType.None {
        return [], false;
      }
      step := [IndexMove(startSquare, targetSquare)];
      goOn := board[targetSquare].color != InvertColor(colorToMove);
    }

    /** The `forEach` over the taking directions of `generatePawnMoves`. */
    method PawnTakes(startSquare: int, takingDirections: seq<SlideDirection>)
      modifies this`legalMoves
      ensures legalMoves == old(legalMoves) + PawnTakesAt(board[..], colorToMove, startSquare, takingDirections)
    {
      var i := 0;
      while i < |takingDirections|
        invariant 0 <= i <= |takingDirections|
        invariant legalMoves == old(legalMoves) + PawnTakesAt(board[..], colorToMove, startSquare, takingDirections[..i])
      {
        assert takingDirections[..i + 1][..i] == takingDirections[..i];
        var targetSquare := startSquare + Offset(takingDirections[i]) * 1;
        if 0 <= targetSquare < board.Length && board[targetSquare].color == InvertColor(colorToMove) {
          legalMoves := legalMoves + [IndexMove(startSquare, targetSquare)];
        }
        i := i + 1;
      }
      assert takingDirections[..|takingDirections|] == takingDirections;
    }

    /** `generateKnightMoves`: each jump onto a square of the array without a piece of the mover. */
    method GenerateKnightMoves(startSquare: int)
      modifies this`legalMoves
      ensures legalMoves == old(legalMoves) + KnightJumps(board[..], colorToMove, startSquare, KnightOffsets)
    {
      var directions := KnightOffsets;
      var i := 0;
      while i < |directions|
        invariant 0 <= i <= |directions|
        invariant legalMoves == old(legalMoves) + KnightJumps(board[..], colorToMove, startSquare, directions[..i])
      {
        assert directions[..i + 1][..i] == directions[..i];
        var targetSquare := startSquare + directions[i];
        if 0 <= targetSquare < board.Length && board[targetSquare].color != colorToMove {
          legalMoves := legalMoves + [IndexMove(startSquare, targetSquare)];
        }
        i := i + 1;
      }
      assert directions[..|directions|] == directions;
    }

    /**
     * `tryMovePiece`: an accepted move puts the piece of the start square on the target square
     * (whatever stood there is gone: an opponent's piece or a None-typed square), empties the start
     * square, passes the turn and regenerates the moves; anything else changes nothing.
     */
    method TryMovePiece(requestedMove: IndexMove)
      requires Valid()
      requires requestedMove.startSquare != requestedMove.targetSquare ==> 0 <= requestedMove.startSquare < board.Length
      modifies this, board
      ensures Valid() && board == old(board)
      ensures old(Accepts(requestedMove)) ==>
        && 0 <= requestedMove.targetSquare < board.Length
        && (old(board[requestedMove.targetSquare]).color != old(colorToMove) || old(board[requestedMove.targetSquare]).kind == PieceType.None)
        && board[..] == old(board[..])[requestedMove.targetSquare := old(board[requestedMove.startSquare])][requestedMove.startSquare := Empty]
        && colorToMove == InvertColor(old(colorToMove))
      ensures !old(Accepts(requestedMove)) ==> unchanged(this) && unchanged(board)
    {
      if requestedMove.startSquare == requestedMove.targetSquare {
        return;
      }
      var piece := board[requestedMove.startSquare];
      if piece.color != colorToMove {
        return;
      }
      if !(exists i :: 0 <= i < |legalMoves| && Equals(legalMoves[i], requestedMove)) {
        return;
      }
      var i :| 0 <= i < |legalMoves| && Equals(legalMoves[i], requestedMove);
      EqualsIsEquality(legalMoves[i], requestedMove);
      AllIndexMovesSound(board[..], colorToMove, numSquaresToEdge, boardWidth, boardHeight, requestedMove);
      board[requestedMove.targetSquare] := piece;
      board[requestedMove.startSquare] := Empty;
      colorToMove := InvertColor(colorToMove);
      GenerateMoves();
    }

    /**
     * `loadFEN`: when the field's size is the board's, a fresh array of empty squares receives
     * the field's pieces (the last write to a square wins) and the moves are regenerated; for any
     * other size nothing changes.
     */
    method LoadFEN(fen: string)
      requires Valid()
      modifies this
      ensures Valid()
      ensures SizeOf(fen) != Size(boardWidth, boardHeight) ==> unchanged(this)
      ensures SizeOf(fen) == Size(boardWidth, boardHeight) ==>
        && fresh(board)
        && board[..] == PlaceAll(seq(boardWidth * boardHeight, _ => Empty), Placements(fen, boardHeight), boardWidth)
        && colorToMove == old(colorToMove)
    {
      var size := GameEngine.GetSizeOfFEN(fen);
      if size.width != boardWidth || size.height != boardHeight {
        return;
      }
      ghost var blank := seq(boardWidth * boardHeight, _ => Empty);
      board := new ClientPiece[boardWidth * boardHeight](_ => Empty);
      assert board[..] == blank;
      var file := 0;
      var rank := size.height - 1;
      var i := 0;
      while i < |fen|
        modifies board
        invariant 0 <= i <= |fen|
        invariant Cursor(file, rank) == CursorAfter(fen[..i], boardHeight)
        invariant board[..] == PlaceAll(blank, Placements(fen[..i], boardHeight), boardWidth)
      {
        var c := fen[i];
        PlacementsStep(fen, i, boardHeight);
        ghost var before := board[..];
        ghost var placed := Placements(fen[..i], boardHeight);
        if c == '/' {
          assert Placements(fen[..i + 1], boardHeight) == placed;
          file := 0;
          rank := rank - 1;
        } else if !IsDigit(c) {
          ghost var pl := PlacementAt(Cursor(file, rank), c);
          assert Placements(fen[..i + 1], boardHeight) == placed + [pl];
          PlaceAllSnoc(blank, placed, pl, boardWidth);
          var index := rank * size.width + file;
          assert index == CoordsToIndex(pl.square, boardWidth);
          var piece := ClientPiece(CharToPieceType(c), if c == ToUpper(c) then PieceColor.White else PieceColor.Black);
          assert piece == ClientPiece(pl.kind, pl.color);
          if 0 <= index < board.Length {
            board[index] := piece;
          }
          assert board[..] == Place(before, pl, boardWidth);
          file := file + 1;
        } else {
          assert Placements(fen[..i + 1], boardHeight) == placed;
          file := file + DigitValue(c);
        }
        i := i + 1;
      }
      assert fen[..|fen|] == fen;
      GenerateMoves();
    }
  }
}
