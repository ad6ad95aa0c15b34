/**
 * The value-style engine of src/game/State.class.ts: a position is an immutable value, applying a
 * move produces a new position (or fails), and move generation scans the board rank by rank with
 * a per-piece generator supplied by the caller.
 */
module State {
  import opened Wrappers
  import opened Enums
  import opened Utils
  import opened Pieces
  import opened Board

  /** A position: the board as rows of pieces (`board[rank][file]`) and the game counters. */
  datatype GameState = GameState(
    board: seq<seq<Piece>>,
    colorToMove: PieceColor,
    enPassantSquare: Option<BoardCoords>,
    castleState: CastleState,
    halfMoves: nat,
    fullMoves: nat)

  /** The board's dimensions (its layout mask is not used by the engine). */
  datatype BoardSetup = BoardSetup(width: nat, height: nat)

  /** Does `board[square.rank][square.file]` hold a piece? */
  predicate OnGrid(board: seq<seq<Piece>>, square: BoardCoords)
  {
    0 <= square.rank < |board| && 0 <= square.file < |board[square.rank]|
  }

  function At(board: seq<seq<Piece>>, square: BoardCoords): Piece
    requires OnGrid(board, square)
  {
    board[square.rank][square.file]
  }

  /** Writes one cell; the board keeps its shape and every other cell. */
  function Put(board: seq<seq<Piece>>, square: BoardCoords, p: Piece): (r: seq<seq<Piece>>)
    requires OnGrid(board, square)
    ensures |r| == |board| && forall i :: 0 <= i < |r| ==> |r[i]| == |board[i]|
    ensures At(r, square) == p
  {
    board[square.rank := board[square.rank][square.file := p]]
  }

  /** Writing one cell leaves every other cell as it was. */
  lemma PutKeepsOthers(board: seq<seq<Piece>>, square: BoardCoords, p: Piece, other: BoardCoords)
    requires OnGrid(board, square) && OnGrid(board, other) && other != square
    ensures At(Put(board, square, p), other) == At(board, other)
  {
  }

  /** `if (move.promotionType) movedPiece.type = move.promotionType`: the None type is falsy. */
  function Promoted(kind: PieceType, promotionType: Option<PieceType>): PieceType
  {
    if promotionType.Some? && promotionType.value != PieceType.None then promotionType.value else kind
  }

  /**
   * The square of the moved piece's object on the resulting board, as the consequence sees it:
   * after a sub-move the state is a fresh clone, and when start equals target the start square's
   * reset has replaced it, so in both cases the consequence's piece is no longer on the board.
   */
  function MovedPieceSquare(move: Move): Option<BoardCoords>
  {
    if move.subMove.Null? && move.startSquare != move.targetSquare then Some(move.targetSquare) else Null
  }

  /** Runs a consequence on the state after the move (before the side to move flips). */
  function ApplyConsequence(s: GameState, c: Consequence, movedAt: Option<BoardCoords>): (r: GameState)
    ensures r.colorToMove == s.colorToMove && r.halfMoves == s.halfMoves && r.fullMoves == s.fullMoves
    ensures |r.board| == |s.board| && forall i :: 0 <= i < |r.board| ==> |r.board[i]| == |s.board[i]|
  {
    match c
    case RevokeCastling(side) => s.(castleState := RevokeSide(s.castleState, s.colorToMove, side))
    case ClearCastling => s.(castleState := ClearSides(s.castleState, s.colorToMove))
    case SetEnPassant(square) => s.(enPassantSquare := Some(square))
    case PromoteToQueen =>
      if movedAt.Some? && OnGrid(s.board, movedAt.value) then
        var p := At(s.board, movedAt.value);
        s.(board := Put(s.board, movedAt.value, p.(kind := PieceType.Queen)))
      else s
  }

  /** The board after the capture: the piece at the capture square goes only if it is the opponent's. */
  function CaptureBoard(s: GameState, move: Move): seq<seq<Piece>>
  {
    if move.targetPieceCoords.Some? && OnGrid(s.board, move.targetPieceCoords.value)
       && At(s.board, move.targetPieceCoords.value).color == InvertColor(s.colorToMove)
    then Put(s.board, move.targetPieceCoords.value, EmptyPiece)
    else s.board
  }

  /** The half-move clock after the move: reset by a capture attempt or a pawn move, else one more. */
  function HalfMovesAfter(s: GameState, move: Move, moved: Piece): nat
  {
    if move.targetPieceCoords.Some? || moved.kind == PieceType.Pawn then 0 else s.halfMoves + 1
  }

  /**
   * The first part of `executeMove`: capture, half-move clock, relocation of the moved piece with
   * its coordinates and promotion, the start square emptied, and the en-passant square cleared.
   */
  function Relocate(s: GameState, move: Move): (r: GameState)
    requires OnGrid(s.board, move.startSquare) && OnGrid(s.board, move.targetSquare)
    ensures |r.board| == |s.board| && forall i :: 0 <= i < |r.board| ==> |r.board[i]| == |s.board[i]|
  {
    var moved := At(s.board, move.startSquare);
    var placed := moved.(coords := move.targetSquare, kind := Promoted(moved.kind, move.promotionType));
    var captured := CaptureBoard(s, move);
    var board := Put(Put(captured, move.targetSquare, placed), move.startSquare, EmptyPiece);
    s.(board := board, halfMoves := HalfMovesAfter(s, move, moved), enPassantSquare := Null)
  }

  /**
   * `executeMove` as a function of the input state: fails when the start or target square is off
   * the grid or when the sub-move fails; otherwise relocates, runs the sub-move (which does not
   * flip the side), runs the consequence, flips the side to move at the top level only, and
   * counts a full move when the moved piece is Black.
   */
  function Execute(s: GameState, move: Move, isSubMove: bool): Option<GameState>
    decreases move
  {
    if !OnGrid(s.board, move.startSquare) || !OnGrid(s.board, move.targetSquare) then Null
    else
      var moved := At(s.board, move.startSquare);
      var relocated := Relocate(s, move);
      var afterSub := if move.subMove.Some? then Execute(relocated, move.subMove.value, true) else Some(relocated);
      if afterSub.Null? then Null else Some(Finish(afterSub.value, move, moved.color, isSubMove))
  }

  /**
   * The last part of `executeMove`: the consequence, the flip of the side to move (top level only)
   * and the full-move count when the moved piece is Black.
   */
  function Finish(s: GameState, move: Move, movedColor: PieceColor, isSubMove: bool): GameState
  {
    var s3 := if move.consequence.Some?
              then ApplyConsequence(s, move.consequence.value, MovedPieceSquare(move))
              else s;
    var s4 := if isSubMove then s3 else s3.(colorToMove := InvertColor(s3.colorToMove));
    if movedColor == PieceColor.Black then s4.(fullMoves := s4.fullMoves + 1) else s4
  }

  /**
   * `State.executeMove`: works on a copy of `state` (a value, so the caller's state cannot change)
   * and returns the new position, or null.
   */
  method ExecuteMove(state: GameState, move: Move, isSubMove: bool := false) returns (result: Option<GameState>)
    ensures result == Execute(state, move, isSubMove)
    decreases move
  {
    var newState := state;
    if !OnGrid(newState.board, move.startSquare) || !OnGrid(newState.board, move.targetSquare) {
      return Null;
    }
    var movedPiece := At(newState.board, move.startSquare);
    newState := RelocateMoved(newState, move);
    movedPiece := movedPiece.(coords := move.targetSquare, kind := Promoted(movedPiece.kind, move.promotionType));
    ghost var afterSubSpec := if move.subMove.Some? then Execute(newState, move.subMove.value, true) else Some(newState);
    assert Execute(state, move, isSubMove)
        == if afterSubSpec.Null? then Null else Some(Finish(afterSubSpec.value, move, movedPiece.color, isSubMove));

    if move.subMove.Some? {
      var postSubMoveState := ExecuteMove(newState, move.subMove.value, true);
      if postSubMoveState.Null? {
        return Null;
      }
      newState := postSubMoveState.value;
    }
    ghost var afterSub := newState;
    assert afterSubSpec == Some(afterSub);

    newState := FinishMove(newState, move, movedPiece.color, isSubMove);
    return Some(newState);
  }

  /**
   * The head of `executeMove`: the capture (only of an opponent's piece) and the half-move clock,
   * then the moved piece written to the target with its new coordinates and promotion, the start
   * square emptied and the en-passant square cleared.
   */
  method RelocateMoved(state: GameState, move: Move) returns (newState: GameState)
    requires OnGrid(state.board, move.startSquare) && OnGrid(state.board, move.targetSquare)
    ensures newState == Relocate(state, move)
  {
    newState := state;
    var movedPiece := At(newState.board, move.startSquare);
    ghost var moved := movedPiece;

    // Take piece
    if move.targetPieceCoords.Some? {
      var tpc := move.targetPieceCoords.value;
      if OnGrid(newState.board, tpc) && At(newState.board, tpc).color == InvertColor(newState.colorToMove) {
        newState := newState.(board := Put(newState.board, tpc, EmptyPiece));
      }
      newState := newState.(halfMoves := 0);
    } else if movedPiece.kind == PieceType.Pawn {
      newState := newState.(halfMoves := 0);
    } else {
      newState := newState.(halfMoves := newState.halfMoves + 1);
    }

    assert newState.board == CaptureBoard(state, move);
    assert newState.halfMoves == HalfMovesAfter(state, move, moved);

    movedPiece := movedPiece.(coords := move.targetSquare);
    if move.promotionType.Some? && move.promotionType.value != PieceType.None {
      movedPiece := movedPiece.(kind := move.promotionType.value);
    }
    newState := newState.(board := Put(newState.board, move.targetSquare, movedPiece));
    newState := newState.(board := Put(newState.board, move.startSquare, EmptyPiece));
    newState := newState.(enPassantSquare := Null);
  }

  /** The tail of `executeMove` after the sub-move: consequence, side flip and full-move count. */
  method FinishMove(state: GameState, move: Move, movedColor: PieceColor, isSubMove: bool) returns (newState: GameState)
    ensures newState == Finish(state, move, movedColor, isSubMove)
  {
    newState := state;
    if move.consequence.Some? {
      newState := ApplyConsequence(newState, move.consequence.value, MovedPieceSquare(move));
    }
    if !isSubMove {
      newState := newState.(colorToMove := InvertColor(newState.colorToMove));
    }
    if movedColor == PieceColor.Black {
      newState := newState.(fullMoves := newState.fullMoves + 1);
    }
  }

  // ---------------------------------------------------------------------------------------------
  // Properties of executeMove

  /** Every row of the board keeps its length. */
  predicate SameShape(a: seq<seq<Piece>>, b: seq<seq<Piece>>)
  {
    |a| == |b| && forall i :: 0 <= i < |a| ==> |a[i]| == |b[i]|
  }

  /** A successful move keeps the board's shape, along its whole chain of sub-moves. */
  lemma {:induction false} ExecuteKeepsShape(s: GameState, move: Move, isSubMove: bool)
    requires Execute(s, move, isSubMove).Some?
    ensures SameShape(Execute(s, move, isSubMove).value.board, s.board)
    decreases move
  {
    if move.subMove.Some? {
      ExecuteKeepsShape(Relocate(s, move), move.subMove.value, true);
    }
  }

  /** A sub-move never flips the side to move, however long its own chain is. */
  lemma {:induction false} SubMoveKeepsSide(s: GameState, move: Move)
    requires Execute(s, move, true).Some?
    ensures Execute(s, move, true).value.colorToMove == s.colorToMove
    decreases move
  {
    if move.subMove.Some? {
      SubMoveKeepsSide(Relocate(s, move), move.subMove.value);
    }
  }

  /** A top-level move hands the turn to the other side (None hands it to White). */
  lemma TopLevelFlipsSide(s: GameState, move: Move)
    requires Execute(s, move, false).Some?
    ensures Execute(s, move, false).value.colorToMove == InvertColor(s.colorToMove)
  {
    if move.subMove.Some? {
      SubMoveKeepsSide(Relocate(s, move), move.subMove.value);
    }
  }

  /**
   * The `isSubMove` flag changes nothing but the final flip: both calls succeed or fail together,
   * and the top-level result is the sub-move result with the side to move inverted.
   */
  lemma SubMoveFlagOnlyFlips(s: GameState, move: Move)
    ensures Execute(s, move, true).Some? <==> Execute(s, move, false).Some?
    ensures Execute(s, move, false).Some? ==>
      Execute(s, move, false).value
        == Execute(s, move, true).value.(colorToMove := InvertColor(Execute(s, move, true).value.colorToMove))
  {
  }

  /**
   * Every call in the chain whose moved piece is Black counts one full move: the count grows by
   * at least one when the outer moved piece is Black, and by at most the chain's length.
   */
  lemma {:induction false} FullMovesBounds(s: GameState, move: Move, isSubMove: bool)
    requires Execute(s, move, isSubMove).Some?
    ensures var r := Execute(s, move, isSubMove).value;
      && s.fullMoves + (if At(s.board, move.startSquare).color == PieceColor.Black then 1 else 0) <= r.fullMoves
      && r.fullMoves <= s.fullMoves + ChainLength(move)
    decreases move
  {
    if move.subMove.Some? {
      FullMovesBounds(Relocate(s, move), move.subMove.value, true);
    }
  }

  /**
   * The number of calls in the chain whose moved piece is Black, each read on the board that call
   * sees: the outer move on `s`, its sub-move on the board after the outer relocation.
   */
  function BlackMovers(s: GameState, move: Move): nat
    decreases move
  {
    if !OnGrid(s.board, move.startSquare) || !OnGrid(s.board, move.targetSquare) then 0
    else
      (if At(s.board, move.startSquare).color == PieceColor.Black then 1 else 0)
      + (if move.subMove.Some? then BlackMovers(Relocate(s, move), move.subMove.value) else 0)
  }

  /**
   * The full-move count grows by exactly the number of Black movers in the chain; without a
   * sub-move that is one when the moved piece is Black and none otherwise.
   */
  lemma {:induction false} FullMovesCount(s: GameState, move: Move, isSubMove: bool)
    requires Execute(s, move, isSubMove).Some?
    ensures Execute(s, move, isSubMove).value.fullMoves == s.fullMoves + BlackMovers(s, move)
    ensures move.subMove.Null? ==>
      Execute(s, move, isSubMove).value.fullMoves
        == s.fullMoves + (if At(s.board, move.startSquare).color == PieceColor.Black then 1 else 0)
    decreases move
  {
    if move.subMove.Some? {
      FullMovesCount(Relocate(s, move), move.subMove.value, true);
    }
  }

  /** Without a sub-move, `executeMove` succeeds exactly when both squares are on the grid. */
  lemma ExecuteSucceedsOnGrid(s: GameState, move: Move, isSubMove: bool)
    requires move.subMove.Null?
    ensures Execute(s, move, isSubMove).Some? <==> OnGrid(s.board, move.startSquare) && OnGrid(s.board, move.targetSquare)
  {
  }

  /** A failing sub-move makes the whole move fail. */
  lemma SubMoveFailurePropagates(s: GameState, move: Move, isSubMove: bool)
    requires move.subMove.Some? && OnGrid(s.board, move.startSquare) && OnGrid(s.board, move.targetSquare)
    requires Execute(Relocate(s, move), move.subMove.value, true).Null?
    ensures Execute(s, move, isSubMove).Null?
  {
  }

  /**
   * A move without a sub-move: the moved piece lands on the target with its coordinates set and
   * its type promoted (to the requested type, or to Queen by the promotion consequence), and the
   * start square is left empty.
   */
  lemma ExecuteMovesPiece(s: GameState, move: Move, isSubMove: bool)
    requires move.subMove.Null? && Execute(s, move, isSubMove).Some?
    ensures var r := Execute(s, move, isSubMove).value;
      var moved := At(s.board, move.startSquare);
      && OnGrid(r.board, move.startSquare) && OnGrid(r.board, move.targetSquare)
      && At(r.board, move.startSquare) == EmptyPiece
      && (move.startSquare != move.targetSquare ==>
            At(r.board, move.targetSquare)
              == moved.(coords := move.targetSquare,
                        kind := if move.consequence == Some(PromoteToQueen) then PieceType.Queen
                                else Promoted(moved.kind, move.promotionType)))
  {
    var moved := At(s.board, move.startSquare);
    var relocated := Relocate(s, move);
    var placed := moved.(coords := move.targetSquare, kind := Promoted(moved.kind, move.promotionType));
    if move.startSquare != move.targetSquare {
      PutKeepsOthers(Put(CaptureBoard(s, move), move.targetSquare, placed), move.startSquare, EmptyPiece, move.targetSquare);
      if move.consequence == Some(PromoteToQueen) {
        PutKeepsOthers(relocated.board, move.targetSquare, placed.(kind := PieceType.Queen), move.startSquare);
      }
    }
  }

  /**
   * A move without a sub-move changes no square other than its start, its target and its capture
   * square, and it clears the capture square exactly when that square holds an opponent's piece.
   */
  lemma ExecuteCaptureRule(s: GameState, move: Move, isSubMove: bool, square: BoardCoords)
    requires move.subMove.Null? && Execute(s, move, isSubMove).Some?
    requires OnGrid(s.board, square) && square != move.startSquare && square != move.targetSquare
    ensures var r := Execute(s, move, isSubMove).value;
      && OnGrid(r.board, square)
      && At(r.board, square)
           == if move.targetPieceCoords == Some(square) && At(s.board, square).color == InvertColor(s.colorToMove)
              then EmptyPiece else At(s.board, square)
  {
    var relocated := Relocate(s, move);
    RelocateCaptureRule(s, move, square);
    FinishKeepsOthers(relocated, move, At(s.board, move.startSquare).color, isSubMove, square);
  }

  /** The head of `executeMove` changes no square but its start, its target and its capture square. */
  lemma RelocateCaptureRule(s: GameState, move: Move, square: BoardCoords)
    requires OnGrid(s.board, move.startSquare) && OnGrid(s.board, move.targetSquare)
    requires OnGrid(s.board, square) && square != move.startSquare && square != move.targetSquare
    ensures var r := Relocate(s, move);
      && OnGrid(r.board, square)
      && At(r.board, square)
           == if move.targetPieceCoords == Some(square) && At(s.board, square).color == InvertColor(s.colorToMove)
              then EmptyPiece else At(s.board, square)
  {
    var moved := At(s.board, move.startSquare);
    var placed := moved.(coords := move.targetSquare, kind := Promoted(moved.kind, move.promotionType));
    var captured := CaptureBoard(s, move);
    if move.targetPieceCoords.Some? && move.targetPieceCoords.value != square
       && OnGrid(s.board, move.targetPieceCoords.value) {
      PutKeepsOthers(s.board, move.targetPieceCoords.value, EmptyPiece, square);
    }
    PutKeepsOthers(captured, move.targetSquare, placed, square);
    PutKeepsOthers(Put(captured, move.targetSquare, placed), move.startSquare, EmptyPiece, square);
  }

  /** The tail of `executeMove` changes no square other than the target of the move. */
  lemma FinishKeepsOthers(s: GameState, move: Move, movedColor: PieceColor, isSubMove: bool, square: BoardCoords)
    requires OnGrid(s.board, square) && square != move.targetSquare
    ensures var r := Finish(s, move, movedColor, isSubMove);
      OnGrid(r.board, square) && At(r.board, square) == At(s.board, square)
  {
    if move.consequence == Some(PromoteToQueen) {
      var movedAt := MovedPieceSquare(move);
      if movedAt.Some? && OnGrid(s.board, movedAt.value) {
        PutKeepsOthers(s.board, movedAt.value, At(s.board, movedAt.value).(kind := PieceType.Queen), square);
      }
    }
  }

  /**
   * A move without a sub-move resets the half-move clock when it names a capture square or moves
   * a pawn, and otherwise advances it by one.
   */
  lemma ExecuteHalfMoves(s: GameState, move: Move, isSubMove: bool)
    requires move.subMove.Null? && Execute(s, move, isSubMove).Some?
    ensures Execute(s, move, isSubMove).value.halfMoves
      == if move.targetPieceCoords.Some? || At(s.board, move.startSquare).kind == PieceType.Pawn then 0
         else s.halfMoves + 1
  {
  }

  /** The en-passant square of a result was set by a consequence somewhere in the move's chain. */
  lemma {:induction false} EnPassantOnlyByConsequence(s: GameState, move: Move, isSubMove: bool)
    requires Execute(s, move, isSubMove).Some?
    ensures var r := Execute(s, move, isSubMove).value;
      r.enPassantSquare.Some? ==> SetEnPassant(r.enPassantSquare.value) in Consequences(move)
    decreases move
  {
    var relocated := Relocate(s, move);
    var afterSub := if move.subMove.Some? then Execute(relocated, move.subMove.value, true) else Some(relocated);
    var r := Execute(s, move, isSubMove).value;
    assert r == Finish(afterSub.value, move, At(s.board, move.startSquare).color, isSubMove);
    FinishEnPassant(afterSub.value, move, At(s.board, move.startSquare).color, isSubMove);
    if r.enPassantSquare.Some? {
      ConsequencesMembership(move, SetEnPassant(r.enPassantSquare.value));
      if move.consequence != Some(SetEnPassant(r.enPassantSquare.value)) && move.subMove.Some? {
        EnPassantOnlyByConsequence(relocated, move.subMove.value, true);
      }
    }
  }

  /** The tail of `executeMove` keeps the en-passant square unless the move's own consequence sets it. */
  lemma FinishEnPassant(s: GameState, move: Move, movedColor: PieceColor, isSubMove: bool)
    ensures var r := Finish(s, move, movedColor, isSubMove);
      r.enPassantSquare == s.enPassantSquare
      || (r.enPassantSquare.Some? && move.consequence == Some(SetEnPassant(r.enPassantSquare.value)))
  {
  }

  /** A move never grants castling rights: each colour's rights can only shrink. */
  lemma {:induction false} CastlingRightsNeverGrow(s: GameState, move: Move, isSubMove: bool)
    requires Execute(s, move, isSubMove).Some?
    ensures var r := Execute(s, move, isSubMove).value;
      && multiset(r.castleState.white) <= multiset(s.castleState.white)
      && multiset(r.castleState.black) <= multiset(s.castleState.black)
    decreases move
  {
    var relocated := Relocate(s, move);
    var afterSub := if move.subMove.Some? then Execute(relocated, move.subMove.value, true) else Some(relocated);
    if move.subMove.Some? {
      CastlingRightsNeverGrow(relocated, move.subMove.value, true);
    }
    if move.consequence.Some? {
      ConsequenceNeverGrantsCastling(afterSub.value, move.consequence.value, MovedPieceSquare(move));
    }
  }

  /** One consequence can only remove castling rights. */
  lemma ConsequenceNeverGrantsCastling(s: GameState, c: Consequence, movedAt: Option<BoardCoords>)
    ensures var r := ApplyConsequence(s, c, movedAt);
      && multiset(r.castleState.white) <= multiset(s.castleState.white)
      && multiset(r.castleState.black) <= multiset(s.castleState.black)
  {
    if c.RevokeCastling? && s.colorToMove != PieceColor.None {
      var cs := s.castleState;
      var r := RevokeSide(cs, s.colorToMove, c.side);
      assert multiset(r.Rights(s.colorToMove)) <= multiset(cs.Rights(s.colorToMove));
    }
  }

  // ---------------------------------------------------------------------------------------------
  // Move generation, piece listing and the attack probe

  /** The per-piece generator called as `piece.generateMoves(state, shallowCheck, boardSetup)`. */
  type PieceGenerator = (Piece, GameState, bool, BoardSetup) -> seq<Move>

  /** Every square the scans read exists: `height` rows of at least `width` pieces each. */
  predicate Fits(s: GameState, setup: BoardSetup)
  {
    |s.board| >= setup.height && forall rank :: 0 <= rank < setup.height ==> |s.board[rank]| >= setup.width
  }

  /** The moves contributed by the square at `rank`, `file`: its piece's moves if it is on the move. */
  function SquareMoves(s: GameState, gen: PieceGenerator, shallowCheck: bool, setup: BoardSetup, rank: nat, file: nat): seq<Move>
    requires Fits(s, setup) && rank < setup.height && file < setup.width
  {
    var piece := s.board[rank][file];
    if piece.color == s.colorToMove then gen(piece, s, shallowCheck, setup) else []
  }

  /** The moves of the first `files` squares of row `rank`, file by file. */
  function RowMoves(s: GameState, gen: PieceGenerator, shallowCheck: bool, setup: BoardSetup, rank: nat, files: nat): seq<Move>
    requires Fits(s, setup) && rank < setup.height && files <= setup.width
  {
    if files == 0 then [] else RowMoves(s, gen, shallowCheck, setup, rank, files - 1) + SquareMoves(s, gen, shallowCheck, setup, rank, files - 1)
  }

  /** The moves of the first `ranks` rows, rank by rank: the order of `generateMoves`. */
  function ScanMoves(s: GameState, gen: PieceGenerator, shallowCheck: bool, setup: BoardSetup, ranks: nat): seq<Move>
    requires Fits(s, setup) && ranks <= setup.height
  {
    if ranks == 0 then [] else ScanMoves(s, gen, shallowCheck, setup, ranks - 1) + RowMoves(s, gen, shallowCheck, setup, ranks - 1, setup.width)
  }

  /**
   * `State.generateMoves`: scans the board rank by rank, file by file, and appends the moves of
   * every piece of the side to move.
   */
  method GenerateMoves(state: GameState, gen: PieceGenerator, shallowCheck: bool, boardSetup: BoardSetup) returns (moves: seq<Move>)
    requires Fits(state, boardSetup)
    ensures moves == ScanMoves(state, gen, shallowCheck, boardSetup, boardSetup.height)
  {
    moves := [];
    var rank := 0;
    while rank < boardSetup.height
      invariant 0 <= rank <= boardSetup.height
      invariant moves == ScanMoves(state, gen, shallowCheck, boardSetup, rank)
    {
      var file := 0;
      while file < boardSetup.width
        invariant 0 <= file <= boardSetup.width
        invariant moves == ScanMoves(state, gen, shallowCheck, boardSetup, rank) + RowMoves(state, gen, shallowCheck, boardSetup, rank, file)
      {
        var piece := state.board[rank][file];
        if piece.color == state.colorToMove {
          var newMoves := gen(piece, state, shallowCheck, boardSetup);
          moves := moves + newMoves;
        }
        file := file + 1;
      }
      rank := rank + 1;
    }
  }

  /** A move is in row `rank`'s list exactly when one of its first `files` squares contributes it. */
  lemma {:induction false} RowMovesMembership(s: GameState, gen: PieceGenerator, shallowCheck: bool, setup: BoardSetup, rank: nat, files: nat, m: Move)
    requires Fits(s, setup) && rank < setup.height && files <= setup.width
    ensures m in RowMoves(s, gen, shallowCheck, setup, rank, files)
            <==> exists file :: 0 <= file < files && m in SquareMoves(s, gen, shallowCheck, setup, rank, file)
  {
    if files > 0 {
      RowMovesMembership(s, gen, shallowCheck, setup, rank, files - 1, m);
    }
  }

  /**
   * A generated move comes from a piece of the side to move: it is in the list exactly when some
   * square inside the board setup holds a piece of `colorToMove` whose generator yields it.
   */
  lemma {:induction false} GeneratedMoveOrigin(s: GameState, gen: PieceGenerator, shallowCheck: bool, setup: BoardSetup, ranks: nat, m: Move)
    requires Fits(s, setup) && ranks <= setup.height
    ensures m in ScanMoves(s, gen, shallowCheck, setup, ranks)
            <==> exists rank, file :: 0 <= rank < ranks && 0 <= file < setup.width
                   && s.board[rank][file].color == s.colorToMove
                   && m in gen(s.board[rank][file], s, shallowCheck, setup)
  {
    if ranks > 0 {
      GeneratedMoveOrigin(s, gen, shallowCheck, setup, ranks - 1, m);
      RowMovesMembership(s, gen, shallowCheck, setup, ranks - 1, setup.width, m);
      if m in RowMoves(s, gen, shallowCheck, setup, ranks - 1, setup.width) {
        var file :| 0 <= file < setup.width && m in SquareMoves(s, gen, shallowCheck, setup, ranks - 1, file);
        assert s.board[ranks - 1][file].color == s.colorToMove && m in gen(s.board[ranks - 1][file], s, shallowCheck, setup);
      }
      if exists rank, file :: 0 <= rank < ranks && 0 <= file < setup.width
           && s.board[rank][file].color == s.colorToMove
           && m in gen(s.board[rank][file], s, shallowCheck, setup) {
        var rank, file :| 0 <= rank < ranks && 0 <= file < setup.width
           && s.board[rank][file].color == s.colorToMove
           && m in gen(s.board[rank][file], s, shallowCheck, setup);
        if rank == ranks - 1 {
          assert m in SquareMoves(s, gen, shallowCheck, setup, rank, file);
        }
      }
    }
  }

  /** The occupied pieces among the first `files` squares of row `rank`. */
  function RowPieces(board: seq<seq<Piece>>, setup: BoardSetup, rank: nat, files: nat): seq<Piece>
    requires |board| >= setup.height && rank < setup.height && files <= setup.width && |board[rank]| >= setup.width
  {
    if files == 0 then []
    else RowPieces(board, setup, rank, files - 1)
         + (if board[rank][files - 1].kind != PieceType.None then [board[rank][files - 1]] else [])
  }

  /** The occupied pieces of the first `ranks` rows, in rank-major order. */
  function ScanPieces(s: GameState, setup: BoardSetup, ranks: nat): seq<Piece>
    requires Fits(s, setup) && ranks <= setup.height
  {
    if ranks == 0 then [] else ScanPieces(s, setup, ranks - 1) + RowPieces(s.board, setup, ranks - 1, setup.width)
  }

  /**
   * `State.generatePieces`: lists the pieces of every square whose type is not None, rank by rank;
   * `pieceCount` ends as the length of the list.
   */
  method GeneratePieces(state: GameState, boardSetup: BoardSetup) returns (pieces: seq<Piece>)
    requires Fits(state, boardSetup)
    ensures pieces == ScanPieces(state, boardSetup, boardSetup.height)
  {
    pieces := [];
    var board := state.board;
    var pieceCount := 0;
    var rank := 0;
    while rank < boardSetup.height
      invariant 0 <= rank <= boardSetup.height
      invariant pieces == ScanPieces(state, boardSetup, rank) && pieceCount == |pieces|
    {
      var file := 0;
      while file < boardSetup.width
        invariant 0 <= file <= boardSetup.width
        invariant pieces == ScanPieces(state, boardSetup, rank) + RowPieces(board, boardSetup, rank, file)
        invariant pieceCount == |pieces|
      {
        var piece := board[rank][file];
        if piece.kind != PieceType.None {
          pieces := pieces + [piece];
          pieceCount := pieceCount + 1;
        }
        file := file + 1;
      }
      rank := rank + 1;
    }
  }

  /** Row `rank`'s list holds exactly the pieces of its first `files` squares that are not None. */
  lemma {:induction false} RowPiecesMembership(board: seq<seq<Piece>>, setup: BoardSetup, rank: nat, files: nat, p: Piece)
    requires |board| >= setup.height && rank < setup.height && files <= setup.width && |board[rank]| >= setup.width
    ensures p in RowPieces(board, setup, rank, files)
            <==> p.kind != PieceType.None && exists file :: 0 <= file < files && board[rank][file] == p
  {
    if files > 0 {
      RowPiecesMembership(board, setup, rank, files - 1, p);
    }
  }

  /** `generatePieces` lists exactly the pieces on the squares of the setup whose type is not None. */
  lemma {:induction false} GeneratedPieceOrigin(s: GameState, setup: BoardSetup, ranks: nat, p: Piece)
    requires Fits(s, setup) && ranks <= setup.height
    ensures p in ScanPieces(s, setup, ranks)
            <==> p.kind != PieceType.None
                 && exists rank, file :: 0 <= rank < ranks && 0 <= file < setup.width && s.board[rank][file] == p
  {
    if ranks > 0 {
      GeneratedPieceOrigin(s, setup, ranks - 1, p);
      RowPiecesMembership(s.board, setup, ranks - 1, setup.width, p);
    }
  }

  /** The `some` callback of `canKingBeTaken`: the move names an existing square holding a King. */
  predicate TakesKing(s: GameState, setup: BoardSetup, m: Move)
    requires Fits(s, setup)
  {
    && m.targetPieceCoords.Some?
    && TileExists(m.targetPieceCoords.value, setup.width, setup.height)
    && s.board[m.targetPieceCoords.value.rank][m.targetPieceCoords.value.file].kind == PieceType.King
  }

  /** `Array.prototype.some` with the callback above, from the front. */
  predicate AnyTakesKing(s: GameState, setup: BoardSetup, moves: seq<Move>)
    requires Fits(s, setup)
  {
    |moves| > 0 && (TakesKing(s, setup, moves[0]) || AnyTakesKing(s, setup, moves[1..]))
  }

  /** `State.canKingBeTaken`: does some shallow move of the side to move capture a King? */
  predicate CanKingBeTaken(s: GameState, gen: PieceGenerator, setup: BoardSetup)
    requires Fits(s, setup)
  {
    AnyTakesKing(s, setup, ScanMoves(s, gen, true, setup, setup.height))
  }

  /** `some` is true exactly when one of the moves satisfies the callback. */
  lemma {:induction false} AnyTakesKingExists(s: GameState, setup: BoardSetup, moves: seq<Move>)
    requires Fits(s, setup)
    ensures AnyTakesKing(s, setup, moves) <==> exists m :: m in moves && TakesKing(s, setup, m)
  {
    if |moves| > 0 {
      AnyTakesKingExists(s, setup, moves[1..]);
      assert moves == [moves[0]] + moves[1..];
    }
  }

  /**
   * The king is attackable exactly when some piece of the side to move, on a square of the setup,
   * has a shallow move whose capture square exists and holds a King.
   */
  lemma CanKingBeTakenIff(s: GameState, gen: PieceGenerator, setup: BoardSetup)
    requires Fits(s, setup)
    ensures CanKingBeTaken(s, gen, setup)
            <==> (exists rank, file, m :: 0 <= rank < setup.height && 0 <= file < setup.width
                    && s.board[rank][file].color == s.colorToMove
                    && m in gen(s.board[rank][file], s, true, setup)
                    && TakesKing(s, setup, m))
  {
    var moves := ScanMoves(s, gen, true, setup, setup.height);
    AnyTakesKingExists(s, setup, moves);
    forall m | TakesKing(s, setup, m)
      ensures m in moves <==> (exists rank, file :: 0 <= rank < setup.height && 0 <= file < setup.width
                                  && s.board[rank][file].color == s.colorToMove
                                  && m in gen(s.board[rank][file], s, true, setup))
    {
      GeneratedMoveOrigin(s, gen, true, setup, setup.height, m);
    }
  }
}
