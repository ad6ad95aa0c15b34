/**
 * Coordinates, vector arithmetic and the `Move` record (src/game/utils.ts), together with the
 * castling-rights record and the move consequences that the engines attach to moves.
 */
module Utils {
  import opened Wrappers
  import opened Enums

  /** A square, or a difference of squares, on the board: zero-based file (column) and rank (row). */
  datatype BoardCoords = BoardCoords(file: int, rank: int)

  const Zero := BoardCoords(0, 0)

  function Add(a: BoardCoords, b: BoardCoords): BoardCoords
  {
    BoardCoords(a.file + b.file, a.rank + b.rank)
  }

  function Scale(a: BoardCoords, n: int): BoardCoords
  {
    BoardCoords(a.file * n, a.rank * n)
  }

  function Subtract(a: BoardCoords, b: BoardCoords): BoardCoords
  {
    BoardCoords(a.file - b.file, a.rank - b.rank)
  }

  predicate Equal(a: BoardCoords, b: BoardCoords)
  {
    a.file == b.file && a.rank == b.rank
  }

  /**
   * The source's `Coords.Scale(delta, -0.5)`, applied only to the even delta of a two-square pawn
   * step, computed exactly: the result scaled by -2 is the delta again.
   */
  function ScaleByNegativeHalf(a: BoardCoords): (r: BoardCoords)
    requires a.file % 2 == 0 && a.rank % 2 == 0
    ensures Scale(r, -2) == a
  {
    BoardCoords(-(a.file / 2), -(a.rank / 2))
  }

  /** Componentwise sum, and `Subtract` undoes `Add`. */
  lemma AddSubtract(a: BoardCoords, b: BoardCoords)
    ensures Add(a, b).file == a.file + b.file && Add(a, b).rank == a.rank + b.rank
    ensures Subtract(Add(a, b), b) == a
    ensures Add(Subtract(a, b), b) == a
    ensures Add(a, b) == Add(b, a)
  {
  }

  /** Scaling by 1 is the identity, by 0 gives the zero vector, and scaling distributes over sums of factors. */
  lemma ScaleLaws(a: BoardCoords, m: int, n: int)
    ensures Scale(a, 1) == a
    ensures Scale(a, 0) == Zero
    ensures Scale(a, m + n) == Add(Scale(a, m), Scale(a, n))
  {
    assert a.file * (m + n) == a.file * m + a.file * n;
    assert a.rank * (m + n) == a.rank * m + a.rank * n;
  }

  /** `Equal` is value equality, hence reflexive and symmetric. */
  lemma EqualIsEquality(a: BoardCoords, b: BoardCoords)
    ensures Equal(a, b) <==> a == b
    ensures Equal(a, a)
    ensures Equal(a, b) == Equal(b, a)
  {
  }

  /**
   * The four kinds of post-move closure the generators create, as data: revoke one castling side,
   * clear all castling rights of the side to move, set the en-passant square, promote the moved
   * piece to a queen.
   */
  datatype Consequence =
    | RevokeCastling(side: SlideDirection)
    | ClearCastling
    | SetEnPassant(square: BoardCoords)
    | PromoteToQueen

  /**
   * A move: start and target squares, the square of the piece it takes (differs from the target
   * for en passant), the rook's linked move when castling, a consequence, and a promotion type.
   */
  datatype Move = Move(
    startSquare: BoardCoords,
    targetSquare: BoardCoords,
    targetPieceCoords: Option<BoardCoords>,
    subMove: Option<Move>,
    consequence: Option<Consequence>,
    promotionType: Option<PieceType>)

  /** The `Move` constructor: omitted arguments default to null; it never sets a promotion type. */
  function NewMove(startSquare: BoardCoords, targetSquare: BoardCoords,
                   targetPieceCoords: Option<BoardCoords> := Null,
                   subMove: Option<Move> := Null,
                   consequence: Option<Consequence> := Null): Move
  {
    Move(startSquare, targetSquare, targetPieceCoords, subMove, consequence, Null)
  }

  /** With only the two squares given, the capture square, sub-move and consequence are all null. */
  lemma NewMoveDefaults(startSquare: BoardCoords, targetSquare: BoardCoords)
    ensures NewMove(startSquare, targetSquare).targetPieceCoords == Null
    ensures NewMove(startSquare, targetSquare).subMove == Null
    ensures NewMove(startSquare, targetSquare).consequence == Null
  {
  }

  /** The number of moves in a move's chain: the move itself and its sub-moves. */
  function ChainLength(m: Move): nat
    decreases m
  {
    1 + if m.subMove.Some? then ChainLength(m.subMove.value) else 0
  }

  /** The consequences carried by a move and its chain of sub-moves, outermost first. */
  function Consequences(m: Move): seq<Consequence>
    decreases m
  {
    (if m.consequence.Some? then [m.consequence.value] else [])
    + (if m.subMove.Some? then Consequences(m.subMove.value) else [])
  }

  /** A consequence of the chain is the move's own or one of its sub-move's chain. */
  lemma ConsequencesMembership(m: Move, x: Consequence)
    ensures x in Consequences(m) <==> m.consequence == Some(x) || (m.subMove.Some? && x in Consequences(m.subMove.value))
  {
  }

  /** `indexOf`: the position of the first occurrence of `x`, or -1 when there is none. */
  function FirstIndex<T(==)>(s: seq<T>, x: T): (i: int)
    ensures x in s ==> 0 <= i < |s| && s[i] == x && x !in s[..i]
    ensures x !in s ==> i == -1
  {
    if s == [] then -1
    else if s[0] == x then 0
    else
      var j := FirstIndex(s[1..], x);
      assert x in s[1..] ==> s[..j + 1] == [s[0]] + s[1..][..j];
      if j < 0 then -1 else j + 1
  }

  /** Removes the first occurrence of `x` (`indexOf` followed by `splice(index, 1)` when found). */
  function RemoveFirst<T(==)>(s: seq<T>, x: T): (r: seq<T>)
    ensures x in s ==> |r| == |s| - 1 && multiset(r) == multiset(s) - multiset{x}
    ensures x in s ==> exists i :: 0 <= i < |s| && s[i] == x && x !in s[..i] && r == s[..i] + s[i + 1..]
    ensures x !in s ==> r == s
  {
    var i := FirstIndex(s, x);
    if i < 0 then s
    else
      assert s == s[..i] + [s[i]] + s[i + 1..];
      s[..i] + s[i + 1..]
  }

  /** Castling rights: for each playing colour, the sides (East = king side, West = queen side) still open. */
  datatype CastleState = CastleState(white: seq<SlideDirection>, black: seq<SlideDirection>)
  {
    function Rights(color: PieceColor): seq<SlideDirection>
      requires color != PieceColor.None
    {
      if color == PieceColor.White then white else black
    }

    function WithRights(color: PieceColor, rights: seq<SlideDirection>): (r: CastleState)
      requires color != PieceColor.None
      ensures r.Rights(color) == rights
      ensures r.Rights(InvertColor(color)) == Rights(InvertColor(color))
    {
      if color == PieceColor.White then this.(white := rights) else this.(black := rights)
    }
  }

  /** Both colours may castle on both sides. */
  const InitialCastleState := CastleState([SlideDirection.East, SlideDirection.West],
                                          [SlideDirection.East, SlideDirection.West])

  /**
   * The rook-move consequence: unless the side to move is None, remove `side` (once) from the
   * rights of the side to move; the other colour's rights are untouched.
   */
  function RevokeSide(cs: CastleState, colorToMove: PieceColor, side: SlideDirection): (r: CastleState)
    ensures colorToMove == PieceColor.None ==> r == cs
    ensures colorToMove != PieceColor.None ==>
      && multiset(r.Rights(colorToMove)) == multiset(cs.Rights(colorToMove)) - multiset{side}
      && r.Rights(InvertColor(colorToMove)) == cs.Rights(InvertColor(colorToMove))
    ensures colorToMove != PieceColor.None && side in cs.Rights(colorToMove) ==>
      var rights := cs.Rights(colorToMove);
      exists i :: 0 <= i < |rights| && rights[i] == side && side !in rights[..i] && r.Rights(colorToMove) == rights[..i] + rights[i + 1..]
    ensures colorToMove != PieceColor.None && side !in cs.Rights(colorToMove) ==> r == cs
  {
    if colorToMove == PieceColor.None then cs
    else cs.WithRights(colorToMove, RemoveFirst(cs.Rights(colorToMove), side))
  }

  /** The castling consequence: unless the side to move is None, it loses both castling sides. */
  function ClearSides(cs: CastleState, colorToMove: PieceColor): (r: CastleState)
    ensures colorToMove == PieceColor.None ==> r == cs
    ensures colorToMove != PieceColor.None ==>
      r.Rights(colorToMove) == [] && r.Rights(InvertColor(colorToMove)) == cs.Rights(InvertColor(colorToMove))
  {
    if colorToMove == PieceColor.None then cs else cs.WithRights(colorToMove, [])
  }
}
