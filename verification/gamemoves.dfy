/**
 * What the stateful engine of src/game/Game.class.ts computes, as functions of the data it reads:
 * the board it derives from its piece list, and the pseudo-legal moves of its sliding, pawn,
 * knight and castling generators. The `Game` class in module GameEngine is proved against these.
 */
module GameMoves {
  import opened Wrappers
  import opened Enums
  import opened Utils
  import opened Pieces
  import opened Board

  /** One element of the `pieces` list; `handle` stands for the piece object's identity. */
  datatype Entry = Entry(handle: nat, piece: Piece)

  /**
   * One square of the derived `board`: the shared empty piece, or a reference to a listed piece,
   * seen through the fields read via the board (its type and colour).
   */
  datatype Cell = Vacant | Holds(handle: nat, kind: PieceType, color: PieceColor)
  {
    function Kind(): PieceType
    {
      if Vacant? then PieceType.None else kind
    }

    function Color(): PieceColor
    {
      if Vacant? then PieceColor.None else color
    }
  }

  /** The 8 by 8 grid filled with the shared empty piece. */
  function EmptyGrid(): (g: map<BoardCoords, Cell>)
    ensures forall sq :: sq in g <==> 0 <= sq.rank < 8 && 0 <= sq.file < 8
    ensures forall sq :: sq in g ==> g[sq] == Vacant
  {
    var squares := set rank: int, file: int | 0 <= rank < 8 && 0 <= file < 8 :: BoardCoords(file, rank);
    assert forall sq: BoardCoords :: 0 <= sq.rank < 8 && 0 <= sq.file < 8 ==> sq in squares by {
      forall sq: BoardCoords | 0 <= sq.rank < 8 && 0 <= sq.file < 8 ensures sq in squares {
        assert sq == BoardCoords(sq.file, sq.rank);
      }
    }
    map sq | sq in squares :: Vacant
  }

  /** The cell written for a listed piece. */
  function CellOf(e: Entry): Cell
  {
    Holds(e.handle, e.piece.kind, e.piece.color)
  }

  /** `generateBoard`: the empty grid with each listed piece written at its coordinates, in list order. */
  function BoardOf(pieces: seq<Entry>): map<BoardCoords, Cell>
  {
    if pieces == [] then EmptyGrid()
    else BoardOf(pieces[..|pieces| - 1])[pieces[|pieces| - 1].piece.coords := CellOf(pieces[|pieces| - 1])]
  }

  /** Does some listed piece stand on `sq`? */
  predicate Occupied(pieces: seq<Entry>, sq: BoardCoords)
  {
    exists i :: 0 <= i < |pieces| && pieces[i].piece.coords == sq
  }

  /** The derived board has exactly the 8 by 8 grid and the squares of the listed pieces. */
  lemma {:induction false} BoardOfDomain(pieces: seq<Entry>, sq: BoardCoords)
    ensures sq in BoardOf(pieces) <==> (0 <= sq.rank < 8 && 0 <= sq.file < 8) || Occupied(pieces, sq)
  {
    if pieces != [] {
      var init := pieces[..|pieces| - 1];
      BoardOfDomain(init, sq);
      if Occupied(init, sq) {
        var i :| 0 <= i < |init| && init[i].piece.coords == sq;
        assert pieces[i].piece.coords == sq;
      }
      if Occupied(pieces, sq) && pieces[|pieces| - 1].piece.coords != sq {
        var i :| 0 <= i < |pieces| && pieces[i].piece.coords == sq;
        assert init[i].piece.coords == sq;
      }
    }
  }

  /** A grid square no listed piece stands on holds the empty piece. */
  lemma {:induction false} BoardOfVacant(pieces: seq<Entry>, sq: BoardCoords)
    requires !Occupied(pieces, sq) && 0 <= sq.rank < 8 && 0 <= sq.file < 8
    ensures sq in BoardOf(pieces) && BoardOf(pieces)[sq] == Vacant
  {
    if pieces != [] {
      var init := pieces[..|pieces| - 1];
      assert pieces[|pieces| - 1].piece.coords != sq;
      forall i | 0 <= i < |init| ensures init[i].piece.coords != sq {
        assert init[i] == pieces[i];
      }
      BoardOfVacant(init, sq);
    }
  }

  /** A square holds the last listed piece standing on it (later pieces overwrite earlier ones). */
  lemma {:induction false} BoardOfLastWins(pieces: seq<Entry>, i: nat)
    requires i < |pieces|
    requires forall j :: i < j < |pieces| ==> pieces[j].piece.coords != pieces[i].piece.coords
    ensures pieces[i].piece.coords in BoardOf(pieces)
    ensures BoardOf(pieces)[pieces[i].piece.coords] == CellOf(pieces[i])
  {
    if i < |pieces| - 1 {
      var init := pieces[..|pieces| - 1];
      assert init[i] == pieces[i];
      forall j | i < j < |init| ensures init[j].piece.coords != init[i].piece.coords {
        assert init[j] == pieces[j];
      }
      BoardOfLastWins(init, i);
      assert pieces[|pieces| - 1].piece.coords != pieces[i].piece.coords;
    }
  }

  /** What a square holds; a square missing from the board reads as empty. */
  function CellAt(board: map<BoardCoords, Cell>, sq: BoardCoords): Cell
  {
    if sq in board then board[sq] else Vacant
  }

  /** The fields the generators read besides the piece list. */
  datatype View = View(
    board: map<BoardCoords, Cell>,
    width: int,
    height: int,
    edges: seq<seq<EdgeData>>,
    castleState: CastleState,
    enPassantSquare: Option<BoardCoords>)

  // ---------------------------------------------------------------------------------------------
  // Sliding pieces and the king

  /** `numSquaresToEdge[rank][file][direction]`; a square without an entry counts 0 squares. */
  function EdgeLookup(edges: seq<seq<EdgeData>>, sq: BoardCoords, d: SlideDirection): int
  {
    if 0 <= sq.rank < |edges| && 0 <= sq.file < |edges[sq.rank]| then edges[sq.rank][sq.file].Get(d) else 0
  }

  /** `Math.min(moveDistance.max, edgeDistance)`, with `Infinity` as no bound. */
  function MaxDistance(range: DistanceRange, edge: int): int
  {
    match range.max
    case Unbounded => edge
    case Finite(n) => Min(n, edge)
  }

  /** A rook's moves revoke castling on its own side: West from file 0, East from anywhere else. */
  function RookConsequence(piece: Piece, start: BoardCoords): Option<Consequence>
  {
    if piece.kind == PieceType.Rook
    then Some(RevokeCastling(if start.file == 0 then SlideDirection.West else SlideDirection.East))
    else Null
  }

  /**
   * The moves along direction `d` from step `n` up to step `max`: the walk ends at a square off
   * the board or holding a piece of the mover's colour, and right after a square holding an
   * opponent's piece, which it takes.
   */
  function RayMoves(v: View, color: PieceColor, start: BoardCoords, piece: Piece, d: SlideDirection, n: int, max: int): seq<Move>
    decreases max - n + 1
  {
    if n > max then []
    else
      var target := Add(start, Scale(SlideVector(d), n));
      if !TileExists(target, v.width, v.height) then []
      else
        var occupant := CellAt(v.board, target);
        if occupant.Color() == color then []
        else
          var isTake := occupant.Color() == InvertColor(color);
          [NewMove(start, target, if isTake then Some(target) else Null, Null, RookConsequence(piece, start))]
          + (if isTake then [] else RayMoves(v, color, start, piece, d, n + 1, max))
  }

  /** The step bound of direction `d` for `piece` on `start`. */
  function RayLength(v: View, start: BoardCoords, piece: Piece, d: SlideDirection): int
  {
    MaxDistance(MoveDistanceRange(piece, v.height), EdgeLookup(v.edges, start, d))
  }

  /** The moves of the directions `dirs`, one direction after the other. */
  function DirectionsMoves(v: View, color: PieceColor, start: BoardCoords, piece: Piece, dirs: seq<SlideDirection>): seq<Move>
  {
    if dirs == [] then []
    else
      var d := dirs[|dirs| - 1];
      DirectionsMoves(v, color, start, piece, dirs[..|dirs| - 1]) + RayMoves(v, color, start, piece, d, 1, RayLength(v, start, piece, d))
  }

  /** Taking one more direction appends its walk. */
  lemma DirectionsMovesSnoc(v: View, color: PieceColor, start: BoardCoords, piece: Piece, dirs: seq<SlideDirection>, i: int)
    requires 0 <= i < |dirs|
    ensures DirectionsMoves(v, color, start, piece, dirs[..i + 1])
      == DirectionsMoves(v, color, start, piece, dirs[..i]) + RayMoves(v, color, start, piece, dirs[i], 1, RayLength(v, start, piece, dirs[i]))
  {
    assert dirs[..i + 1][..i] == dirs[..i];
  }

  /** `generateSlidingMoves`: the moves of every sliding direction of the piece, in table order. */
  function SlidingMoves(v: View, color: PieceColor, start: BoardCoords, piece: Piece): seq<Move>
  {
    DirectionsMoves(v, color, start, piece, SlidingDirections(piece))
  }

  /**
   * What every move of a walk satisfies: it starts at `start`, lands `k` steps along `d` with
   * `n <= k <= max` on an existing square that holds no piece of the mover's colour, takes exactly
   * when that square holds an opponent's piece (and then takes the target itself), carries the
   * rook's castling consequence and no sub-move.
   */
  predicate SlideStep(v: View, color: PieceColor, start: BoardCoords, piece: Piece, d: SlideDirection, n: int, max: int, m: Move)
  {
    && m.startSquare == start
    && (exists k :: n <= k <= max && m.targetSquare == Add(start, Scale(SlideVector(d), k)))
    && TileExists(m.targetSquare, v.width, v.height)
    && CellAt(v.board, m.targetSquare).Color() != color
    && (m.targetPieceCoords.Some? <==> CellAt(v.board, m.targetSquare).Color() == InvertColor(color))
    && (m.targetPieceCoords.Some? ==> m.targetPieceCoords.value == m.targetSquare)
    && m.subMove.Null? && m.promotionType.Null?
    && m.consequence == RookConsequence(piece, start)
  }

  /** Every move of a walk is a valid slide step. */
  lemma {:induction false} RayMovesSteps(v: View, color: PieceColor, start: BoardCoords, piece: Piece, d: SlideDirection, n: int, max: int)
    ensures forall m :: m in RayMoves(v, color, start, piece, d, n, max) ==> SlideStep(v, color, start, piece, d, n, max, m)
    decreases max - n + 1
  {
    var r := RayMoves(v, color, start, piece, d, n, max);
    if n <= max && r != [] {
      var rest := RayMoves(v, color, start, piece, d, n + 1, max);
      RayMovesSteps(v, color, start, piece, d, n + 1, max);
      assert SlideStep(v, color, start, piece, d, n, max, r[0]);
      assert r == [r[0]] + if r[0].targetPieceCoords.Some? then [] else rest;
      forall m | m in rest ensures SlideStep(v, color, start, piece, d, n, max, m) {
        assert SlideStep(v, color, start, piece, d, n + 1, max, m);
        var k :| n + 1 <= k <= max && m.targetSquare == Add(start, Scale(SlideVector(d), k));
      }
    }
  }

  /** A walk is contiguous and ends at its first take: move `i` lands `n + i` steps out, and only the last move may take. */
  lemma {:induction false} RayMovesShape(v: View, color: PieceColor, start: BoardCoords, piece: Piece, d: SlideDirection, n: int, max: int)
    ensures forall i :: 0 <= i < |RayMoves(v, color, start, piece, d, n, max)| ==>
      RayMoves(v, color, start, piece, d, n, max)[i].targetSquare == Add(start, Scale(SlideVector(d), n + i))
    ensures forall i :: 0 <= i < |RayMoves(v, color, start, piece, d, n, max)| - 1 ==>
      RayMoves(v, color, start, piece, d, n, max)[i].targetPieceCoords.Null?
    decreases max - n + 1
  {
    var r := RayMoves(v, color, start, piece, d, n, max);
    if n <= max && r != [] {
      var rest := RayMoves(v, color, start, piece, d, n + 1, max);
      RayMovesShape(v, color, start, piece, d, n + 1, max);
      assert r[0].targetSquare == Add(start, Scale(SlideVector(d), n));
      if r[0].targetPieceCoords.Some? {
        assert r == [r[0]];
      } else {
        assert r == [r[0]] + rest;
        forall i | 1 <= i < |r|
          ensures r[i].targetSquare == Add(start, Scale(SlideVector(d), n + i))
          ensures i < |r| - 1 ==> r[i].targetPieceCoords.Null?
        {
          var j := i - 1;
          assert r[i] == rest[j];
          assert 0 <= j < |rest|;
          assert rest[j].targetSquare == Add(start, Scale(SlideVector(d), (n + 1) + j));
        }
      }
    }
  }

  /** Every move of a list of directions is a valid slide step along one of them. */
  lemma {:induction false} DirectionsMovesShape(v: View, color: PieceColor, start: BoardCoords, piece: Piece, dirs: seq<SlideDirection>, m: Move)
    requires m in DirectionsMoves(v, color, start, piece, dirs)
    ensures exists d :: d in dirs && SlideStep(v, color, start, piece, d, 1, RayLength(v, start, piece, d), m)
  {
    var d := dirs[|dirs| - 1];
    var init := dirs[..|dirs| - 1];
    if m in DirectionsMoves(v, color, start, piece, init) {
      DirectionsMovesShape(v, color, start, piece, init, m);
      var d' :| d' in init && SlideStep(v, color, start, piece, d', 1, RayLength(v, start, piece, d'), m);
      assert d' in dirs;
    } else {
      RayMovesSteps(v, color, start, piece, d, 1, RayLength(v, start, piece, d));
    }
  }

  /** The square `k` steps from `start` toward `d`. */
  function SlideTarget(start: BoardCoords, d: SlideDirection, k: int): BoardCoords
  {
    Add(start, Scale(SlideVector(d), k))
  }

  /** A walk may pass `sq`: it is on the board and holds neither side's piece. */
  predicate SlidePassesAt(v: View, color: PieceColor, sq: BoardCoords)
  {
    TileExists(sq, v.width, v.height) && CellAt(v.board, sq).Color() != color && CellAt(v.board, sq).Color() != InvertColor(color)
  }

  /** A walk may stop on `sq`: it is on the board and holds no piece of the mover's colour. */
  predicate SlideLandsAt(v: View, color: PieceColor, sq: BoardCoords)
  {
    TileExists(sq, v.width, v.height) && CellAt(v.board, sq).Color() != color
  }

  /** Step `k` is reached from step `n`: it may be stopped on, and every step from `n` before it may be passed. */
  predicate SlideReachesAt(v: View, color: PieceColor, start: BoardCoords, d: SlideDirection, n: int, k: int)
  {
    && SlideLandsAt(v, color, SlideTarget(start, d, k))
    && forall j :: n <= j < k ==> SlidePassesAt(v, color, SlideTarget(start, d, j))
  }

  /** The move a walk makes onto `target`: a take exactly when an opponent's piece stands there, with the rook's consequence. */
  predicate IsSlideMove(v: View, color: PieceColor, start: BoardCoords, piece: Piece, target: BoardCoords, m: Move)
  {
    m == NewMove(start, target, if CellAt(v.board, target).Color() == InvertColor(color) then Some(target) else Null,
                 Null, RookConsequence(piece, start))
  }

  /** The first step of a walk: none off the board or onto an own piece; otherwise its move, then the rest unless it took. */
  lemma RayMovesHead(v: View, color: PieceColor, start: BoardCoords, piece: Piece, d: SlideDirection, n: int, max: int)
    requires n <= max
    ensures var target := SlideTarget(start, d, n);
      RayMoves(v, color, start, piece, d, n, max)
        == if !SlideLandsAt(v, color, target) then []
           else if SlidePassesAt(v, color, target)
           then [NewMove(start, target, Null, Null, RookConsequence(piece, start))] + RayMoves(v, color, start, piece, d, n + 1, max)
           else [NewMove(start, target, Some(target), Null, RookConsequence(piece, start))]
  {
  }

  /** A step reached from step `n + 1` over a passable step `n` is reached from step `n`. */
  lemma SlideReachesExtend(v: View, color: PieceColor, start: BoardCoords, d: SlideDirection, n: int, k: int)
    requires SlidePassesAt(v, color, SlideTarget(start, d, n)) && SlideReachesAt(v, color, start, d, n + 1, k)
    ensures SlideReachesAt(v, color, start, d, n, k)
  {
  }

  /** Every move of a walk lands on a step reached from step `n`. */
  lemma {:induction false} RayMovesReached(v: View, color: PieceColor, start: BoardCoords, piece: Piece, d: SlideDirection, n: int, max: int, m: Move)
    requires m in RayMoves(v, color, start, piece, d, n, max)
    ensures exists k :: n <= k <= max && SlideReachesAt(v, color, start, d, n, k) && IsSlideMove(v, color, start, piece, SlideTarget(start, d, k), m)
    decreases max - n + 1
  {
    var target := SlideTarget(start, d, n);
    var first := NewMove(start, target, if SlidePassesAt(v, color, target) then Null else Some(target), Null, RookConsequence(piece, start));
    RayMovesHead(v, color, start, piece, d, n, max);
    if m == first {
      assert SlideReachesAt(v, color, start, d, n, n);
      assert IsSlideMove(v, color, start, piece, target, m);
    } else {
      assert m in RayMoves(v, color, start, piece, d, n + 1, max);
      RayMovesReached(v, color, start, piece, d, n + 1, max, m);
      var k :| n + 1 <= k <= max && SlideReachesAt(v, color, start, d, n + 1, k) && IsSlideMove(v, color, start, piece, SlideTarget(start, d, k), m);
      SlideReachesExtend(v, color, start, d, n, k);
    }
  }

  /** Every step reached from step `n` gives its move. */
  lemma {:induction false} RayMovesComplete(v: View, color: PieceColor, start: BoardCoords, piece: Piece, d: SlideDirection, n: int, max: int, k: int, m: Move)
    requires n <= k <= max && SlideReachesAt(v, color, start, d, n, k) && IsSlideMove(v, color, start, piece, SlideTarget(start, d, k), m)
    ensures m in RayMoves(v, color, start, piece, d, n, max)
    decreases k - n
  {
    if k > n {
      assert SlidePassesAt(v, color, SlideTarget(start, d, n));
      RayMovesComplete(v, color, start, piece, d, n + 1, max, k, m);
    }
    RayMovesHead(v, color, start, piece, d, n, max);
  }

  /**
   * A walk holds exactly the moves onto step `k`, for `n <= k <= max`, such that step `k` is on the
   * board and free of the mover's pieces and every earlier step is on the board and empty.
   */
  lemma RayMovesExact(v: View, color: PieceColor, start: BoardCoords, piece: Piece, d: SlideDirection, n: int, max: int, m: Move)
    ensures m in RayMoves(v, color, start, piece, d, n, max) <==>
      exists k :: n <= k <= max && SlideReachesAt(v, color, start, d, n, k) && IsSlideMove(v, color, start, piece, SlideTarget(start, d, k), m)
  {
    if m in RayMoves(v, color, start, piece, d, n, max) {
      RayMovesReached(v, color, start, piece, d, n, max, m);
    }
    if exists k :: n <= k <= max && SlideReachesAt(v, color, start, d, n, k) && IsSlideMove(v, color, start, piece, SlideTarget(start, d, k), m) {
      var k :| n <= k <= max && SlideReachesAt(v, color, start, d, n, k) && IsSlideMove(v, color, start, piece, SlideTarget(start, d, k), m);
      RayMovesComplete(v, color, start, piece, d, n, max, k, m);
    }
  }

  /** The walks of a list of directions are the concatenation of each direction's walk. */
  lemma {:induction false} DirectionsMovesConcat(v: View, color: PieceColor, start: BoardCoords, piece: Piece, dirs: seq<SlideDirection>)
    ensures DirectionsMoves(v, color, start, piece, dirs) == ConcatMap(d => RayMoves(v, color, start, piece, d, 1, RayLength(v, start, piece, d)), dirs)
  {
    if dirs != [] {
      DirectionsMovesConcat(v, color, start, piece, dirs[..|dirs| - 1]);
    }
  }

  /**
   * `generateSlidingMoves` gives exactly the moves onto step `k` toward one of the piece's
   * directions, `1 <= k <=` the direction's bound, such that step `k` is on the board and free of
   * the mover's pieces and every step before it is on the board and empty.
   */
  lemma SlidingMovesExact(v: View, color: PieceColor, start: BoardCoords, piece: Piece, m: Move)
    ensures m in SlidingMoves(v, color, start, piece) <==>
      exists i, k :: 0 <= i < |SlidingDirections(piece)| && 1 <= k <= RayLength(v, start, piece, SlidingDirections(piece)[i])
        && SlideReachesAt(v, color, start, SlidingDirections(piece)[i], 1, k)
        && IsSlideMove(v, color, start, piece, SlideTarget(start, SlidingDirections(piece)[i], k), m)
  {
    var dirs := SlidingDirections(piece);
    DirectionsMovesConcat(v, color, start, piece, dirs);
    ConcatMember(d => RayMoves(v, color, start, piece, d, 1, RayLength(v, start, piece, d)), dirs, m);
    if m in SlidingMoves(v, color, start, piece) {
      var i :| 0 <= i < |dirs| && m in RayMoves(v, color, start, piece, dirs[i], 1, RayLength(v, start, piece, dirs[i]));
      RayMovesExact(v, color, start, piece, dirs[i], 1, RayLength(v, start, piece, dirs[i]), m);
    }
    if exists i, k :: 0 <= i < |dirs| && 1 <= k <= RayLength(v, start, piece, dirs[i])
        && SlideReachesAt(v, color, start, dirs[i], 1, k) && IsSlideMove(v, color, start, piece, SlideTarget(start, dirs[i], k), m) {
      var i, k :| 0 <= i < |dirs| && 1 <= k <= RayLength(v, start, piece, dirs[i])
        && SlideReachesAt(v, color, start, dirs[i], 1, k) && IsSlideMove(v, color, start, piece, SlideTarget(start, dirs[i], k), m);
      RayMovesExact(v, color, start, piece, dirs[i], 1, RayLength(v, start, piece, dirs[i]), m);
    }
  }

  /**
   * Sliding (and king) moves never land on a square of the mover's colour, take exactly the
   * opponent-occupied target, follow one of the piece's own directions, and carry the rook's
   * castling consequence; a King's move goes exactly one step.
   */
  lemma SlidingMovesRules(v: View, color: PieceColor, start: BoardCoords, piece: Piece, m: Move)
    requires m in SlidingMoves(v, color, start, piece)
    ensures exists d :: d in SlidingDirections(piece) && SlideStep(v, color, start, piece, d, 1, RayLength(v, start, piece, d), m)
    ensures CellAt(v.board, m.targetSquare).Color() != color
    ensures m.targetPieceCoords.Some? <==> CellAt(v.board, m.targetSquare).Color() == InvertColor(color)
    ensures piece.kind == PieceType.King ==> exists d :: m.targetSquare == Add(start, SlideVector(d))
  {
    DirectionsMovesShape(v, color, start, piece, SlidingDirections(piece), m);
    var d :| d in SlidingDirections(piece) && SlideStep(v, color, start, piece, d, 1, RayLength(v, start, piece, d), m);
    if piece.kind == PieceType.King {
      var k :| 1 <= k <= RayLength(v, start, piece, d) && m.targetSquare == Add(start, Scale(SlideVector(d), k));
      assert k == 1;
      ScaleLaws(SlideVector(d), 1, 1);
    }
  }

  // ---------------------------------------------------------------------------------------------
  // Pawns

  /** White pawns move North, every other colour South. */
  function PawnDirection(color: PieceColor): SlideDirection
  {
    if color == PieceColor.White then SlideDirection.North else SlideDirection.South
  }

  /** Is `sq` on the first or last rank, where a pawn promotes? */
  predicate OnEdgeRank(sq: BoardCoords, height: int)
  {
    sq.rank == height - 1 || sq.rank == 0
  }

  /**
   * The consequence of a forward step of `n` squares onto `target`: a double step sets the
   * en-passant square to the square `passed` over; a step onto the first or last rank promotes to
   * a queen.
   */
  function PushConsequence(n: int, passed: BoardCoords, target: BoardCoords, height: int): Option<Consequence>
  {
    if n == 2 then Some(SetEnPassant(passed))
    else if OnEdgeRank(target, height) then Some(PromoteToQueen)
    else Null
  }

  /** The forward steps, and whether the walk hit a missing square (which ends the whole generator). */
  datatype Pushes = Pushes(moves: seq<Move>, aborted: bool)

  /** The forward steps from step `n` up to step `max`; the walk stops at the first occupied square. */
  function PawnPushes(v: View, color: PieceColor, start: BoardCoords, n: int, max: int): Pushes
    decreases max - n + 1
  {
    if n > max then Pushes([], false)
    else
      var delta := Scale(SlideVector(PawnDirection(color)), n);
      var target := Add(start, delta);
      if !TileExists(target, v.width, v.height) then Pushes([], true)
      else if CellAt(v.board, target).Kind() != PieceType.None then Pushes([], false)
      else
        var rest := PawnPushes(v, color, start, n + 1, max);
        Pushes([NewMove(start, target, Null, Null, PushConsequence(n, Ahead(color, start, 1), target, v.height))] + rest.moves, rest.aborted)
  }

  /** White pawns take to the North-East and North-West, every other colour to the South. */
  function TakingDirections(color: PieceColor): seq<SlideDirection>
  {
    if color == PieceColor.White then [SlideDirection.NorthEast, SlideDirection.NorthWest]
    else [SlideDirection.SouthEast, SlideDirection.SouthWest]
  }

  /**
   * The diagonal move toward `d`: a take of an opponent's piece on the target, or an en-passant
   * take of the square one step behind the target when the target is the en-passant square.
   */
  function PawnTake(v: View, color: PieceColor, start: BoardCoords, d: SlideDirection): seq<Move>
  {
    var target := Add(start, SlideVector(d));
    if !TileExists(target, v.width, v.height) then []
    else
      var consequence := if OnEdgeRank(target, v.height) then Some(PromoteToQueen) else Null;
      if CellAt(v.board, target).Color() == InvertColor(color) then
        [NewMove(start, target, Some(target), Null, consequence)]
      else if v.enPassantSquare.Some? && Equal(v.enPassantSquare.value, target) then
        [NewMove(start, target, Some(Add(Scale(SlideVector(PawnDirection(color)), -1), target)), Null, consequence)]
      else []
  }

  /** The diagonal moves toward the directions `dirs`, in order. */
  function PawnTakes(v: View, color: PieceColor, start: BoardCoords, dirs: seq<SlideDirection>): seq<Move>
  {
    if dirs == [] then [] else PawnTakes(v, color, start, dirs[..|dirs| - 1]) + PawnTake(v, color, start, dirs[|dirs| - 1])
  }

  /** A pawn's step bound: 2 on its start rank, 1 elsewhere. */
  function PawnRange(piece: Piece, height: int): nat
  {
    if IsOnPawnStartRank(piece, height) then 2 else 1
  }

  /**
   * `generatePawnMoves`: the forward steps, then the diagonal moves, unless a forward step ran off
   * the board, which returns before the diagonals.
   */
  function PawnMoves(v: View, color: PieceColor, start: BoardCoords, piece: Piece): seq<Move>
  {
    var pushes := PawnPushes(v, color, start, 1, PawnRange(piece, v.height));
    if pushes.aborted then pushes.moves else pushes.moves + PawnTakes(v, color, start, TakingDirections(color))
  }

  /** The square `k` steps ahead of `start` for a pawn of `color`. */
  function Ahead(color: PieceColor, start: BoardCoords, k: int): BoardCoords
  {
    Add(start, Scale(SlideVector(PawnDirection(color)), k))
  }

  /**
   * A forward step of `k` squares: onto an existing empty square, every square from step `n` before
   * it empty too, taking nothing; a double step sets the en-passant square to the square passed over,
   * and any other step promotes to a queen exactly when it lands on the first or last rank.
   */
  predicate PushStepAt(v: View, color: PieceColor, start: BoardCoords, n: int, k: int, m: Move)
  {
    && m.startSquare == start && m.targetPieceCoords.Null? && m.subMove.Null? && m.promotionType.Null?
    && m.targetSquare == Ahead(color, start, k)
    && TileExists(m.targetSquare, v.width, v.height)
    && CellAt(v.board, m.targetSquare).Kind() == PieceType.None
    && (forall j :: n <= j < k ==> CellAt(v.board, Ahead(color, start, j)).Kind() == PieceType.None)
    && (k == 2 ==> m.consequence == Some(SetEnPassant(Ahead(color, start, 1))))
    && (k != 2 ==> m.consequence == if OnEdgeRank(m.targetSquare, v.height) then Some(PromoteToQueen) else Null)
  }

  /** A forward step of a walk: `k` squares ahead for some `n <= k <= max`. */
  predicate PushStep(v: View, color: PieceColor, start: BoardCoords, n: int, max: int, m: Move)
  {
    exists k :: n <= k <= max && PushStepAt(v, color, start, n, k, m)
  }

  /** The first step of a walk satisfies the forward-step rule. */
  lemma PushHead(v: View, color: PieceColor, start: BoardCoords, n: int, max: int)
    requires n <= max && TileExists(Ahead(color, start, n), v.width, v.height)
    requires CellAt(v.board, Ahead(color, start, n)).Kind() == PieceType.None
    ensures PushStepAt(v, color, start, n, n,
      NewMove(start, Ahead(color, start, n), Null, Null, PushConsequence(n, Ahead(color, start, 1), Ahead(color, start, n), v.height)))
  {
  }

  lemma {:induction false} PawnPushesShape(v: View, color: PieceColor, start: BoardCoords, n: int, max: int)
    ensures forall m :: m in PawnPushes(v, color, start, n, max).moves ==> PushStep(v, color, start, n, max, m)
    decreases max - n + 1
  {
    if n <= max {
      var target := Ahead(color, start, n);
      if TileExists(target, v.width, v.height) && CellAt(v.board, target).Kind() == PieceType.None {
        PawnPushesShape(v, color, start, n + 1, max);
        PushHead(v, color, start, n, max);
        forall m | m in PawnPushes(v, color, start, n + 1, max).moves ensures PushStep(v, color, start, n, max, m) {
          var k :| n + 1 <= k <= max && PushStepAt(v, color, start, n + 1, k, m);
          assert PushStepAt(v, color, start, n, k, m);
        }
      }
    }
  }

  /**
   * A diagonal move of a pawn: one step toward a taking direction onto an existing square, taking
   * either the opponent's piece there, or, when the target is the en-passant square, the square
   * one step behind the target; it promotes on the first or last rank.
   */
  predicate TakeStep(v: View, color: PieceColor, start: BoardCoords, m: Move)
  {
    && m.startSquare == start && m.targetPieceCoords.Some? && m.subMove.Null? && m.promotionType.Null?
    && (exists d :: d in TakingDirections(color) && m.targetSquare == Add(start, SlideVector(d)))
    && TileExists(m.targetSquare, v.width, v.height)
    && (m.consequence == if OnEdgeRank(m.targetSquare, v.height) then Some(PromoteToQueen) else Null)
    && ((CellAt(v.board, m.targetSquare).Color() == InvertColor(color) && m.targetPieceCoords.value == m.targetSquare)
        || (v.enPassantSquare == Some(m.targetSquare)
            && m.targetPieceCoords.value == Subtract(m.targetSquare, SlideVector(PawnDirection(color)))))
  }

  lemma {:induction false} PawnTakesShape(v: View, color: PieceColor, start: BoardCoords, dirs: seq<SlideDirection>)
    requires forall d :: d in dirs ==> d in TakingDirections(color)
    ensures forall m :: m in PawnTakes(v, color, start, dirs) ==> TakeStep(v, color, start, m)
  {
    if dirs != [] {
      var d := dirs[|dirs| - 1];
      PawnTakesShape(v, color, start, dirs[..|dirs| - 1]);
      var target := Add(start, SlideVector(d));
      var behind := Add(Scale(SlideVector(PawnDirection(color)), -1), target);
      assert behind == Subtract(target, SlideVector(PawnDirection(color)));
      if v.enPassantSquare.Some? {
        EqualIsEquality(v.enPassantSquare.value, target);
      }
    }
  }

  /** Every forward step from step `n` up to, not including, step `k` is on the board and holds no piece. */
  predicate PushClear(v: View, color: PieceColor, start: BoardCoords, n: int, k: int)
  {
    forall j :: n <= j < k ==> TileExists(Ahead(color, start, j), v.width, v.height) && CellAt(v.board, Ahead(color, start, j)).Kind() == PieceType.None
  }

  /** The forward move of `k` squares, with the en-passant or promotion consequence of that step. */
  predicate IsPushMove(v: View, color: PieceColor, start: BoardCoords, k: int, m: Move)
  {
    m == NewMove(start, Ahead(color, start, k), Null, Null, PushConsequence(k, Ahead(color, start, 1), Ahead(color, start, k), v.height))
  }

  /** The forward walk runs off the board: some step up to `max` is missing, every step before it clear. */
  predicate PushRunsOff(v: View, color: PieceColor, start: BoardCoords, n: int, max: int)
  {
    exists k :: n <= k <= max && PushClear(v, color, start, n, k) && !TileExists(Ahead(color, start, k), v.width, v.height)
  }

  /** The first forward step: off the board it aborts, onto a piece it stops, otherwise its move and the rest. */
  lemma PawnPushesHead(v: View, color: PieceColor, start: BoardCoords, n: int, max: int)
    requires n <= max
    ensures var target := Ahead(color, start, n);
      var rest := PawnPushes(v, color, start, n + 1, max);
      PawnPushes(v, color, start, n, max)
        == if !TileExists(target, v.width, v.height) then Pushes([], true)
           else if CellAt(v.board, target).Kind() != PieceType.None then Pushes([], false)
           else Pushes([NewMove(start, target, Null, Null, PushConsequence(n, Ahead(color, start, 1), target, v.height))] + rest.moves, rest.aborted)
  {
  }

  /** Every forward move lands on a step whose path from step `n` is clear. */
  lemma {:induction false} PawnPushesReached(v: View, color: PieceColor, start: BoardCoords, n: int, max: int, m: Move)
    requires m in PawnPushes(v, color, start, n, max).moves
    ensures exists k :: n <= k <= max && PushClear(v, color, start, n, k + 1) && IsPushMove(v, color, start, k, m)
    decreases max - n + 1
  {
    PawnPushesHead(v, color, start, n, max);
    if IsPushMove(v, color, start, n, m) {
      assert PushClear(v, color, start, n, n + 1);
    } else {
      PawnPushesReached(v, color, start, n + 1, max, m);
      var k :| n + 1 <= k <= max && PushClear(v, color, start, n + 1, k + 1) && IsPushMove(v, color, start, k, m);
      assert PushClear(v, color, start, n, k + 1);
    }
  }

  /** Every step up to `max` whose path from step `n` is clear gives its forward move. */
  lemma {:induction false} PawnPushesComplete(v: View, color: PieceColor, start: BoardCoords, n: int, max: int, k: int)
    requires n <= k <= max && PushClear(v, color, start, n, k + 1)
    ensures exists m :: m in PawnPushes(v, color, start, n, max).moves && IsPushMove(v, color, start, k, m)
    decreases k - n
  {
    if k > n {
      PawnPushesComplete(v, color, start, n + 1, max, k);
    }
    PawnPushesHead(v, color, start, n, max);
    if k == n {
      var m := NewMove(start, Ahead(color, start, n), Null, Null, PushConsequence(n, Ahead(color, start, 1), Ahead(color, start, n), v.height));
      assert m in PawnPushes(v, color, start, n, max).moves;
    }
  }

  /** The walk aborts exactly when it runs off the board before meeting a piece. */
  lemma {:induction false} PawnPushesAborted(v: View, color: PieceColor, start: BoardCoords, n: int, max: int)
    ensures PawnPushes(v, color, start, n, max).aborted <==> PushRunsOff(v, color, start, n, max)
    decreases max - n + 1
  {
    if n <= max {
      var target := Ahead(color, start, n);
      PawnPushesAborted(v, color, start, n + 1, max);
      PawnPushesHead(v, color, start, n, max);
      if !TileExists(target, v.width, v.height) {
        assert PushClear(v, color, start, n, n);
      } else if CellAt(v.board, target).Kind() == PieceType.None {
        if PushRunsOff(v, color, start, n + 1, max) {
          var k :| n + 1 <= k <= max && PushClear(v, color, start, n + 1, k) && !TileExists(Ahead(color, start, k), v.width, v.height);
          assert PushClear(v, color, start, n, k);
        }
        if PushRunsOff(v, color, start, n, max) {
          var k :| n <= k <= max && PushClear(v, color, start, n, k) && !TileExists(Ahead(color, start, k), v.width, v.height);
          assert PushClear(v, color, start, n + 1, k);
        }
      }
    }
  }

  /** The diagonal move toward `d`: onto an opponent's piece, or onto the en-passant square taking the square behind it; promoting on an edge rank. */
  predicate IsTakeMove(v: View, color: PieceColor, start: BoardCoords, d: SlideDirection, m: Move)
  {
    var target := Add(start, SlideVector(d));
    var consequence := if OnEdgeRank(target, v.height) then Some(PromoteToQueen) else Null;
    && TileExists(target, v.width, v.height)
    && (if CellAt(v.board, target).Color() == InvertColor(color)
        then m == NewMove(start, target, Some(target), Null, consequence)
        else (v.enPassantSquare == Some(target)
              && m == NewMove(start, target, Some(Subtract(target, SlideVector(PawnDirection(color)))), Null, consequence)))
  }

  /** One taking direction gives exactly its diagonal move, when there is one. */
  lemma PawnTakeExact(v: View, color: PieceColor, start: BoardCoords, d: SlideDirection, m: Move)
    ensures m in PawnTake(v, color, start, d) <==> IsTakeMove(v, color, start, d, m)
  {
    var target := Add(start, SlideVector(d));
    assert Add(Scale(SlideVector(PawnDirection(color)), -1), target) == Subtract(target, SlideVector(PawnDirection(color)));
    if v.enPassantSquare.Some? {
      EqualIsEquality(v.enPassantSquare.value, target);
    }
  }

  /** The diagonal moves of a list of directions are the concatenation of each direction's. */
  lemma {:induction false} PawnTakesConcat(v: View, color: PieceColor, start: BoardCoords, dirs: seq<SlideDirection>)
    ensures PawnTakes(v, color, start, dirs) == ConcatMap(d => PawnTake(v, color, start, d), dirs)
  {
    if dirs != [] {
      PawnTakesConcat(v, color, start, dirs[..|dirs| - 1]);
    }
  }

  /**
   * `generatePawnMoves` gives exactly the forward moves of `k` squares, `1 <= k <=` its range,
   * over clear steps, and, unless the forward walk ran off the board, the diagonal moves toward the
   * colour's taking directions.
   */
  lemma PawnMovesExact(v: View, color: PieceColor, start: BoardCoords, piece: Piece, m: Move)
    ensures m in PawnMoves(v, color, start, piece) <==>
      (exists k :: 1 <= k <= PawnRange(piece, v.height) && PushClear(v, color, start, 1, k + 1) && IsPushMove(v, color, start, k, m))
      || (!PushRunsOff(v, color, start, 1, PawnRange(piece, v.height))
          && exists i :: 0 <= i < |TakingDirections(color)| && IsTakeMove(v, color, start, TakingDirections(color)[i], m))
  {
    var max := PawnRange(piece, v.height);
    var dirs := TakingDirections(color);
    PawnPushesAborted(v, color, start, 1, max);
    PawnTakesConcat(v, color, start, dirs);
    ConcatMember(d => PawnTake(v, color, start, d), dirs, m);
    forall i | 0 <= i < |dirs| ensures m in PawnTake(v, color, start, dirs[i]) <==> IsTakeMove(v, color, start, dirs[i], m) {
      PawnTakeExact(v, color, start, dirs[i], m);
    }
    if m in PawnPushes(v, color, start, 1, max).moves {
      PawnPushesReached(v, color, start, 1, max, m);
    }
    if exists k :: 1 <= k <= max && PushClear(v, color, start, 1, k + 1) && IsPushMove(v, color, start, k, m) {
      var k :| 1 <= k <= max && PushClear(v, color, start, 1, k + 1) && IsPushMove(v, color, start, k, m);
      PawnPushesComplete(v, color, start, 1, max, k);
    }
  }

  /**
   * Every pawn move is either a forward step onto an empty square (two only from the start rank,
   * setting the en-passant square to the square passed over) or a diagonal take of an opponent's
   * piece or of the pawn behind the en-passant square.
   */
  lemma PawnMovesRules(v: View, color: PieceColor, start: BoardCoords, piece: Piece, m: Move)
    requires m in PawnMoves(v, color, start, piece)
    ensures m.targetPieceCoords.Null? ==> PushStep(v, color, start, 1, PawnRange(piece, v.height), m)
    ensures m.targetPieceCoords.Null? && m.targetSquare == Ahead(color, start, 2) ==> IsOnPawnStartRank(piece, v.height)
    ensures m.targetPieceCoords.Some? ==> TakeStep(v, color, start, m)
  {
    var max := PawnRange(piece, v.height);
    PawnPushesShape(v, color, start, 1, max);
    PawnTakesShape(v, color, start, TakingDirections(color));
    if m.targetPieceCoords.Null? {
      assert m in PawnPushes(v, color, start, 1, max).moves;
      var dir := SlideVector(PawnDirection(color));
      var k :| 1 <= k <= max && PushStepAt(v, color, start, 1, k, m);
      if m.targetSquare == Ahead(color, start, 2) {
        assert dir.file * k == dir.file * 2 && dir.rank * k == dir.rank * 2;
        assert dir.file != 0 || dir.rank != 0;
        assert k == 2;
      }
    }
  }

  // ---------------------------------------------------------------------------------------------
  // Knights

  /**
   * The knight's move by `offset`: none when the target is off the board or missing from the
   * board; a take onto an opponent's piece; a plain move onto an empty (None-coloured) square.
   */
  function KnightMove(v: View, color: PieceColor, start: BoardCoords, offset: BoardCoords): seq<Move>
  {
    var target := Add(start, offset);
    if !TileExists(target, v.width, v.height) || target !in v.board then []
    else if v.board[target].Color() == InvertColor(color) then [NewMove(start, target, Some(target))]
    else if v.board[target].Color() == PieceColor.None then [NewMove(start, target)]
    else []
  }

  function KnightMovesBy(v: View, color: PieceColor, start: BoardCoords, offsets: seq<BoardCoords>): seq<Move>
  {
    if offsets == [] then []
    else KnightMovesBy(v, color, start, offsets[..|offsets| - 1]) + KnightMove(v, color, start, offsets[|offsets| - 1])
  }

  /** `generateKnightMoves`: one try per knight offset, in table order. */
  function KnightMoves(v: View, color: PieceColor, start: BoardCoords): seq<Move>
  {
    KnightMovesBy(v, color, start, KnightDirections)
  }

  /**
   * A knight move jumps by one of the knight offsets onto an existing square of the board; it
   * takes exactly when the square holds an opponent's piece, and otherwise the square is empty.
   */
  predicate KnightStep(v: View, color: PieceColor, start: BoardCoords, offsets: seq<BoardCoords>, m: Move)
  {
    && m.startSquare == start && m.subMove.Null? && m.consequence.Null? && m.promotionType.Null?
    && (exists i :: 0 <= i < |offsets| && m.targetSquare == Add(start, offsets[i]))
    && TileExists(m.targetSquare, v.width, v.height) && m.targetSquare in v.board
    && (if v.board[m.targetSquare].Color() == InvertColor(color)
        then m.targetPieceCoords == Some(m.targetSquare)
        else v.board[m.targetSquare].Color() == PieceColor.None && m.targetPieceCoords.Null?)
  }

  lemma {:induction false} KnightMovesRules(v: View, color: PieceColor, start: BoardCoords, offsets: seq<BoardCoords>, m: Move)
    requires m in KnightMovesBy(v, color, start, offsets)
    ensures KnightStep(v, color, start, offsets, m)
  {
    var init := offsets[..|offsets| - 1];
    if m in KnightMovesBy(v, color, start, init) {
      KnightMovesRules(v, color, start, init, m);
      var i :| 0 <= i < |init| && m.targetSquare == Add(start, init[i]);
      assert offsets[i] == init[i];
    } else {
      assert m.targetSquare == Add(start, offsets[|offsets| - 1]);
    }
  }

  /** The jump by `offset`: onto an opponent's piece, taking it, or onto an empty square of the board. */
  predicate IsKnightMove(v: View, color: PieceColor, start: BoardCoords, offset: BoardCoords, m: Move)
  {
    var target := Add(start, offset);
    && TileExists(target, v.width, v.height) && target in v.board
    && ((v.board[target].Color() == InvertColor(color) && m == NewMove(start, target, Some(target)))
        || (v.board[target].Color() == PieceColor.None && m == NewMove(start, target)))
  }

  /** The jumps of a list of offsets are the concatenation of each offset's. */
  lemma {:induction false} KnightMovesConcat(v: View, color: PieceColor, start: BoardCoords, offsets: seq<BoardCoords>)
    ensures KnightMovesBy(v, color, start, offsets) == ConcatMap(o => KnightMove(v, color, start, o), offsets)
  {
    if offsets != [] {
      KnightMovesConcat(v, color, start, offsets[..|offsets| - 1]);
    }
  }

  /** The jumps are exactly those by a listed offset onto an opponent's piece or an empty square of the board. */
  lemma KnightMovesExact(v: View, color: PieceColor, start: BoardCoords, offsets: seq<BoardCoords>, m: Move)
    ensures m in KnightMovesBy(v, color, start, offsets) <==> exists i :: 0 <= i < |offsets| && IsKnightMove(v, color, start, offsets[i], m)
  {
    KnightMovesConcat(v, color, start, offsets);
    ConcatMember(o => KnightMove(v, color, start, o), offsets, m);
  }

  // ---------------------------------------------------------------------------------------------
  // Castling

  /** The rook's file for a castling side: 7 toward the East, 0 otherwise. */
  function RookFile(d: SlideDirection): int
  {
    if d == SlideDirection.East then 7 else 0
  }

  /**
   * The castling move toward `d`: when the two squares toward `d` exist and are empty, the king
   * goes two squares, its linked rook move goes from the rook's file to the square next to the
   * king's start, and the consequence clears the mover's castling rights.
   */
  function CastleMove(v: View, start: BoardCoords, d: SlideDirection): seq<Move>
  {
    var subMove := NewMove(BoardCoords(RookFile(d), start.rank), Add(start, SlideVector(d)));
    var first := Add(start, Scale(SlideVector(d), 1));
    var second := Add(start, Scale(SlideVector(d), 2));
    if !TileExists(first, v.width, v.height) || CellAt(v.board, first).Kind() != PieceType.None then []
    else if !TileExists(second, v.width, v.height) || CellAt(v.board, second).Kind() != PieceType.None then []
    else [NewMove(start, second, Null, Some(subMove), Some(ClearCastling))]
  }

  function CastleMovesToward(v: View, start: BoardCoords, sides: seq<SlideDirection>): seq<Move>
  {
    if sides == [] then [] else CastleMovesToward(v, start, sides[..|sides| - 1]) + CastleMove(v, start, sides[|sides| - 1])
  }

  /** `generateCastlingMoves`: none for the None colour, else one try per side still in the rights. */
  function CastlingMoves(v: View, color: PieceColor, start: BoardCoords): seq<Move>
  {
    if color == PieceColor.None then [] else CastleMovesToward(v, start, v.castleState.Rights(color))
  }

  /**
   * Castling is offered only toward a side still in the mover's rights, over two existing empty
   * squares; the king moves two squares, the rook moves from file 7 (East) or 0 to the square the
   * king passes, and the move clears the mover's rights.
   */
  lemma {:induction false} CastlingMovesRules(v: View, color: PieceColor, start: BoardCoords, sides: seq<SlideDirection>, m: Move)
    requires m in CastleMovesToward(v, start, sides)
    ensures exists d :: (d in sides
      && TileExists(Add(start, SlideVector(d)), v.width, v.height)
      && CellAt(v.board, Add(start, SlideVector(d))).Kind() == PieceType.None
      && TileExists(m.targetSquare, v.width, v.height)
      && CellAt(v.board, m.targetSquare).Kind() == PieceType.None
      && m.targetSquare == Add(start, Scale(SlideVector(d), 2))
      && m.subMove == Some(NewMove(BoardCoords(RookFile(d), start.rank), Add(start, SlideVector(d)))))
    ensures m.startSquare == start && m.targetPieceCoords.Null? && m.consequence == Some(ClearCastling)
  {
    var init := sides[..|sides| - 1];
    if m in CastleMovesToward(v, start, init) {
      CastlingMovesRules(v, color, start, init, m);
      var d :| d in init
        && TileExists(Add(start, SlideVector(d)), v.width, v.height)
        && CellAt(v.board, Add(start, SlideVector(d))).Kind() == PieceType.None
        && TileExists(m.targetSquare, v.width, v.height)
        && CellAt(v.board, m.targetSquare).Kind() == PieceType.None
        && m.targetSquare == Add(start, Scale(SlideVector(d), 2))
        && m.subMove == Some(NewMove(BoardCoords(RookFile(d), start.rank), Add(start, SlideVector(d))));
      assert d in sides;
    } else {
      var d := sides[|sides| - 1];
      ScaleLaws(SlideVector(d), 0, 0);
      assert d in sides;
    }
  }

  /** Castling toward `d`: both squares toward `d` on the board and empty; the king goes two squares and the rook to the square it passes. */
  predicate IsCastleMove(v: View, start: BoardCoords, d: SlideDirection, m: Move)
  {
    var first := Add(start, SlideVector(d));
    var second := Add(start, Scale(SlideVector(d), 2));
    && TileExists(first, v.width, v.height) && CellAt(v.board, first).Kind() == PieceType.None
    && TileExists(second, v.width, v.height) && CellAt(v.board, second).Kind() == PieceType.None
    && m == NewMove(start, second, Null, Some(NewMove(BoardCoords(RookFile(d), start.rank), first)), Some(ClearCastling))
  }

  /** The castling moves of a list of sides are the concatenation of each side's. */
  lemma {:induction false} CastleMovesConcat(v: View, start: BoardCoords, sides: seq<SlideDirection>)
    ensures CastleMovesToward(v, start, sides) == ConcatMap(d => CastleMove(v, start, d), sides)
  {
    if sides != [] {
      CastleMovesConcat(v, start, sides[..|sides| - 1]);
    }
  }

  /** The castling moves are exactly one per listed side whose two squares are on the board and empty. */
  lemma CastlingMovesExact(v: View, start: BoardCoords, sides: seq<SlideDirection>, m: Move)
    ensures m in CastleMovesToward(v, start, sides) <==> exists i :: 0 <= i < |sides| && IsCastleMove(v, start, sides[i], m)
  {
    CastleMovesConcat(v, start, sides);
    ConcatMember(d => CastleMove(v, start, d), sides, m);
    forall i | 0 <= i < |sides| ensures m in CastleMove(v, start, sides[i]) <==> IsCastleMove(v, start, sides[i], m) {
      ScaleLaws(SlideVector(sides[i]), 1, 0);
    }
  }

  // ---------------------------------------------------------------------------------------------
  // All moves of one colour

  /** The moves `generateMoves` asks of one piece, by type: a King slides one step and castles. */
  function PieceMoves(v: View, color: PieceColor, piece: Piece): seq<Move>
  {
    var start := piece.coords;
    if IsSlidingPiece(piece) then SlidingMoves(v, color, start, piece)
    else if piece.kind == PieceType.Pawn then PawnMoves(v, color, start, piece)
    else if piece.kind == PieceType.Knight then KnightMoves(v, color, start)
    else if piece.kind == PieceType.King then SlidingMoves(v, color, start, piece) + CastlingMoves(v, color, start)
    else []
  }

  /** The moves `generateMoves(color)` collects from one listed piece: none unless it has that colour. */
  function EntryMoves(v: View, color: PieceColor, e: Entry): seq<Move>
  {
    if e.piece.color == color then PieceMoves(v, color, e.piece) else []
  }

  /** `generateMoves(color)`: the moves of every listed piece of that colour, in list order. */
  function AllMoves(v: View, pieces: seq<Entry>, color: PieceColor): seq<Move>
  {
    if pieces == [] then []
    else AllMoves(v, pieces[..|pieces| - 1], color) + EntryMoves(v, color, pieces[|pieces| - 1])
  }

  /** A generated move belongs to a listed piece of the requested colour, and every such piece's moves are generated. */
  lemma AllMovesOrigin(v: View, pieces: seq<Entry>, color: PieceColor, m: Move)
    ensures m in AllMoves(v, pieces, color) <==> exists i :: 0 <= i < |pieces| && m in EntryMoves(v, color, pieces[i])
  {
    var f := e => EntryMoves(v, color, e);
    AllMovesConcat(v, pieces, color);
    ConcatMember(f, pieces, m);
  }

  /** The concatenation of `f` over `xs`, in order. */
  function ConcatMap<T, U>(f: T -> seq<U>, xs: seq<T>): seq<U>
  {
    if xs == [] then [] else ConcatMap(f, xs[..|xs| - 1]) + f(xs[|xs| - 1])
  }

  /** An element of a concatenation comes from one of its parts, and every part's elements are in it. */
  lemma {:induction false} ConcatMember<T, U>(f: T -> seq<U>, xs: seq<T>, y: U)
    ensures y in ConcatMap(f, xs) <==> exists i :: 0 <= i < |xs| && y in f(xs[i])
  {
    if xs != [] {
      var init := xs[..|xs| - 1];
      ConcatMember(f, init, y);
      assert forall i :: 0 <= i < |init| ==> init[i] == xs[i];
    }
  }

  /** `generateMoves` concatenates the per-piece move lists. */
  lemma {:induction false} AllMovesConcat(v: View, pieces: seq<Entry>, color: PieceColor)
    ensures AllMoves(v, pieces, color) == ConcatMap(e => EntryMoves(v, color, e), pieces)
  {
    if pieces != [] {
      AllMovesConcat(v, pieces[..|pieces| - 1], color);
    }
  }
}
