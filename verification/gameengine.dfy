/**
 * The stateful engine of src/game/Game.class.ts: a `Game` object holding a piece list, the board
 * derived from it, castling rights, the en-passant square and the cached moves, updated in place
 * by loading a FEN board field and by playing moves.
 */
module GameEngine {
  import opened Wrappers
  import opened Enums
  import opened Utils
  import opened Pieces
  import opened Board
  import opened Fen
  import opened GameMoves

  // ---------------------------------------------------------------------------------------------
  // executeMove as a function of the fields it changes

  /** The fields `executeMove` changes. */
  datatype Core = Core(pieces: seq<Entry>, castleState: CastleState, enPassantSquare: Option<BoardCoords>)

  /** `pieces.indexOf(object)`: the first position of the piece with that handle, or -1. */
  function IndexOf(pieces: seq<Entry>, handle: nat): (r: int)
    ensures -1 <= r < |pieces|
    ensures r >= 0 ==> pieces[r].handle == handle && forall j :: 0 <= j < r ==> pieces[j].handle != handle
    ensures r == -1 <==> forall j :: 0 <= j < |pieces| ==> pieces[j].handle != handle
  {
    if pieces == [] then -1
    else if pieces[0].handle == handle then 0
    else
      var rest := IndexOf(pieces[1..], handle);
      if rest == -1 then -1 else rest + 1
  }

  /** Where `splice(index, 1)` starts: a negative index counts back from the end, and below the start it clamps to 0. */
  function SpliceStart(length: int, index: int): (k: int)
    ensures k >= 0
  {
    if index >= 0 then index else if length + index >= 0 then length + index else 0
  }

  /**
   * `splice(index, 1)`: removes the element at the start position, keeping the others in order;
   * a start at or beyond the end removes nothing.
   */
  function SpliceOne(pieces: seq<Entry>, index: int): (r: seq<Entry>)
    ensures var k := SpliceStart(|pieces|, index);
      k < |pieces| ==>
        && |r| == |pieces| - 1
        && multiset(r) == multiset(pieces) - multiset{pieces[k]}
        && forall i :: 0 <= i < |r| ==> r[i] == pieces[if i < k then i else i + 1]
    ensures SpliceStart(|pieces|, index) >= |pieces| ==> r == pieces
  {
    var k := SpliceStart(|pieces|, index);
    if k < |pieces| then
      assert pieces == pieces[..k] + [pieces[k]] + pieces[k + 1..];
      pieces[..k] + pieces[k + 1..]
    else pieces
  }

  /** The two in-place writes to a piece object: its coordinates when it moves, its type when it promotes. */
  datatype Edit = MoveTo(coords: BoardCoords) | PromoteTo(kind: PieceType)

  function Edited(p: Piece, e: Edit): Piece
  {
    match e
    case MoveTo(coords) => p.(coords := coords)
    case PromoteTo(kind) => p.(kind := kind)
  }

  /**
   * Writes `e` to the piece object with handle `h`: the list keeps its length, every handle stays
   * at its position and every colour is kept, and only the objects with handle `h` change.
   */
  function WithEdit(pieces: seq<Entry>, h: nat, e: Edit): (r: seq<Entry>)
    ensures |r| == |pieces|
    ensures forall i :: 0 <= i < |r| ==> r[i].handle == pieces[i].handle && r[i].piece.color == pieces[i].piece.color
    ensures forall i :: 0 <= i < |r| && pieces[i].handle != h ==> r[i] == pieces[i]
    ensures forall i :: 0 <= i < |r| && pieces[i].handle == h ==> r[i].piece == Edited(pieces[i].piece, e)
  {
    seq(|pieces|, i requires 0 <= i < |pieces| =>
      if pieces[i].handle == h then pieces[i].(piece := Edited(pieces[i].piece, e)) else pieces[i])
  }

  /**
   * The take: when the board square names an opponent's piece, the piece is looked up in the list
   * and spliced out, except that index 0 is skipped (`if (targetPieceIndex)`) and -1 removes the
   * last piece.
   */
  function CaptureOn(c: Core, board: map<BoardCoords, Cell>, colorToMove: PieceColor, square: BoardCoords): Core
  {
    if square !in board then c
    else
      var target := board[square];
      if target.Holds? && target.color == InvertColor(colorToMove) then
        var index := IndexOf(c.pieces, target.handle);
        if index != 0 then c.(pieces := SpliceOne(c.pieces, index)) else c
      else c
  }

  /** A consequence run on the game with the moved piece's handle. */
  function ConsequenceOn(c: Core, colorToMove: PieceColor, cons: Consequence, moved: nat): Core
  {
    match cons
    case RevokeCastling(side) => c.(castleState := RevokeSide(c.castleState, colorToMove, side))
    case ClearCastling => c.(castleState := ClearSides(c.castleState, colorToMove))
    case SetEnPassant(square) => c.(enPassantSquare := Some(square))
    case PromoteToQueen => c.(pieces := WithEdit(c.pieces, moved, PromoteTo(PieceType.Queen)))
  }

  /**
   * `Game.executeMove`: nothing happens unless the board's start square holds a piece of the side
   * to move; otherwise that piece's coordinates become the target, the en-passant square is
   * cleared, the take is made, the sub-move runs, and then the consequence. The board itself is
   * not rewritten until the next regeneration.
   */
  function ExecuteOn(c: Core, board: map<BoardCoords, Cell>, colorToMove: PieceColor, move: Move): Core
    decreases move
  {
    var start := CellAt(board, move.startSquare);
    if !start.Holds? || start.color != colorToMove then c
    else
      var c2 := Prepare(c, board, colorToMove, move, start.handle);
      var c3 := if move.subMove.Some? then ExecuteOn(c2, board, colorToMove, move.subMove.value) else c2;
      Conclude(c3, colorToMove, move, start.handle)
  }

  /** The last stage of `executeMove`: the move's consequence, when it has one, runs. */
  function Conclude(c: Core, colorToMove: PieceColor, move: Move, moved: nat): Core
  {
    if move.consequence.Some? then ConsequenceOn(c, colorToMove, move.consequence.value, moved) else c
  }

  /**
   * The first stage of `executeMove`: the moved piece object takes the target coordinates, the
   * en-passant square is cleared, and the take is made.
   */
  function Prepare(c: Core, board: map<BoardCoords, Cell>, colorToMove: PieceColor, move: Move, moved: nat): Core
  {
    var c1 := c.(pieces := WithEdit(c.pieces, moved, MoveTo(move.targetSquare)), enPassantSquare := Null);
    if move.targetPieceCoords.Some? then CaptureOn(c1, board, colorToMove, move.targetPieceCoords.value) else c1
  }

  /** The piece objects (by handle) a list refers to. */
  function Handles(pieces: seq<Entry>): set<nat>
  {
    set i | 0 <= i < |pieces| :: pieces[i].handle
  }

  /** Playing a move removes at most one piece object per move of its chain (the take). */
  lemma {:induction false} ExecuteOnPieceCount(c: Core, board: map<BoardCoords, Cell>, colorToMove: PieceColor, move: Move)
    ensures |c.pieces| - ChainLength(move) <= |ExecuteOn(c, board, colorToMove, move).pieces| <= |c.pieces|
    decreases move
  {
    var start := CellAt(board, move.startSquare);
    if start.Holds? && start.color == colorToMove {
      var c2 := Prepare(c, board, colorToMove, move, start.handle);
      PrepareShape(c, board, colorToMove, move, start.handle);
      var c3 := if move.subMove.Some? then ExecuteOn(c2, board, colorToMove, move.subMove.value) else c2;
      if move.subMove.Some? {
        ExecuteOnPieceCount(c2, board, colorToMove, move.subMove.value);
      }
      assert |c.pieces| - ChainLength(move) <= |c3.pieces| <= |c.pieces|;
      if move.consequence.Some? {
        ConsequenceKeepsHandles(c3, colorToMove, move.consequence.value, start.handle);
      }
    }
  }

  /** Playing a move never introduces a piece object the list did not hold. */
  lemma {:induction false} ExecuteOnKeepsHandles(c: Core, board: map<BoardCoords, Cell>, colorToMove: PieceColor, move: Move)
    ensures Handles(ExecuteOn(c, board, colorToMove, move).pieces) <= Handles(c.pieces)
    decreases move
  {
    var start := CellAt(board, move.startSquare);
    if start.Holds? && start.color == colorToMove {
      var c2 := Prepare(c, board, colorToMove, move, start.handle);
      PrepareShape(c, board, colorToMove, move, start.handle);
      var c3 := if move.subMove.Some? then ExecuteOn(c2, board, colorToMove, move.subMove.value) else c2;
      if move.subMove.Some? {
        ExecuteOnKeepsHandles(c2, board, colorToMove, move.subMove.value);
      }
      assert Handles(c3.pieces) <= Handles(c.pieces);
      if move.consequence.Some? {
        ConsequenceKeepsHandles(c3, colorToMove, move.consequence.value, start.handle);
      }
    }
  }

  /** A consequence keeps the list's length and its piece objects. */
  lemma ConsequenceKeepsHandles(c: Core, colorToMove: PieceColor, cons: Consequence, moved: nat)
    ensures var r := ConsequenceOn(c, colorToMove, cons, moved);
      |r.pieces| == |c.pieces| && Handles(r.pieces) == Handles(c.pieces)
  {
    SameHandles(ConsequenceOn(c, colorToMove, cons, moved).pieces, c.pieces);
  }

  /** The first stage removes at most the one taken piece object, keeps the rest distinct and clears en passant. */
  lemma PrepareShape(c: Core, board: map<BoardCoords, Cell>, colorToMove: PieceColor, move: Move, moved: nat)
    ensures var r := Prepare(c, board, colorToMove, move, moved);
      && |c.pieces| - 1 <= |r.pieces| <= |c.pieces| && Handles(r.pieces) <= Handles(c.pieces)
      && (DistinctHandles(c.pieces) ==> DistinctHandles(r.pieces))
      && r.enPassantSquare == Null && r.castleState == c.castleState
  {
    var c1 := c.(pieces := WithEdit(c.pieces, moved, MoveTo(move.targetSquare)), enPassantSquare := Null);
    SameHandles(c1.pieces, c.pieces);
    if DistinctHandles(c.pieces) {
      SameHandlesDistinct(c1.pieces, c.pieces);
    }
    if move.targetPieceCoords.Some? {
      var square := move.targetPieceCoords.value;
      if square in board && board[square].Holds? {
        SpliceHandles(c1.pieces, IndexOf(c1.pieces, board[square].handle));
        if DistinctHandles(c.pieces) {
          SpliceDistinct(c1.pieces, IndexOf(c1.pieces, board[square].handle));
        }
      }
    }
  }

  /** Splicing one element out of a list keeps only handles it had. */
  lemma SpliceHandles(pieces: seq<Entry>, index: int)
    ensures |pieces| - 1 <= |SpliceOne(pieces, index)| <= |pieces|
    ensures Handles(SpliceOne(pieces, index)) <= Handles(pieces)
  {
    var r := SpliceOne(pieces, index);
    var k := SpliceStart(|pieces|, index);
    if k < |pieces| {
      forall h | h in Handles(r) ensures h in Handles(pieces) {
        var i :| 0 <= i < |r| && r[i].handle == h;
        if i < k { assert r[i] == pieces[i]; } else { assert r[i] == pieces[i + 1]; }
      }
    }
  }

  /** Rewriting fields of the listed pieces in place keeps every handle where it was. */
  lemma SameHandles(a: seq<Entry>, b: seq<Entry>)
    requires |a| == |b| && forall i :: 0 <= i < |a| ==> a[i].handle == b[i].handle
    ensures Handles(a) == Handles(b)
  {
    forall h | h in Handles(a) ensures h in Handles(b) {
      var i :| 0 <= i < |a| && a[i].handle == h;
      assert b[i].handle == h;
    }
    forall h | h in Handles(b) ensures h in Handles(a) {
      var i :| 0 <= i < |b| && b[i].handle == h;
      assert a[i].handle == h;
    }
  }

  /** Castling rights only shrink when a move is played: every right left was there before. */
  lemma {:induction false} ExecuteOnCastlingShrinks(c: Core, board: map<BoardCoords, Cell>, colorToMove: PieceColor, move: Move)
    ensures forall side :: side in ExecuteOn(c, board, colorToMove, move).castleState.white ==> side in c.castleState.white
    ensures forall side :: side in ExecuteOn(c, board, colorToMove, move).castleState.black ==> side in c.castleState.black
    decreases move
  {
    var start := CellAt(board, move.startSquare);
    if start.Holds? && start.color == colorToMove {
      var c2 := Prepare(c, board, colorToMove, move, start.handle);
      PrepareShape(c, board, colorToMove, move, start.handle);
      var c3 := if move.subMove.Some? then ExecuteOn(c2, board, colorToMove, move.subMove.value) else c2;
      if move.subMove.Some? {
        ExecuteOnCastlingShrinks(c2, board, colorToMove, move.subMove.value);
      }
      if move.consequence.Some? {
        ConsequenceShrinksCastling(c3, colorToMove, move.consequence.value, start.handle);
      }
    }
  }

  lemma ConsequenceShrinksCastling(c: Core, colorToMove: PieceColor, cons: Consequence, moved: nat)
    ensures forall side :: side in ConsequenceOn(c, colorToMove, cons, moved).castleState.white ==> side in c.castleState.white
    ensures forall side :: side in ConsequenceOn(c, colorToMove, cons, moved).castleState.black ==> side in c.castleState.black
  {
    var r := ConsequenceOn(c, colorToMove, cons, moved).castleState;
    if cons.RevokeCastling? && colorToMove != PieceColor.None {
      forall side | side in r.Rights(colorToMove) ensures side in c.castleState.Rights(colorToMove) {
        assert side in multiset(r.Rights(colorToMove));
      }
      assert colorToMove == PieceColor.White || colorToMove == PieceColor.Black;
    }
  }

  /** A move whose start square holds no piece of the side to move changes nothing. */
  lemma ExecuteOnNeedsOwnPiece(c: Core, board: map<BoardCoords, Cell>, colorToMove: PieceColor, move: Move)
    requires CellAt(board, move.startSquare).Color() != colorToMove
    ensures ExecuteOn(c, board, colorToMove, move) == c
  {
  }

  /**
   * A plain move (no take, no sub-move) relocates exactly the piece object on its start square,
   * promoting it to a queen under the promotion consequence, and clears the en-passant square
   * unless its consequence sets it.
   */
  lemma ExecuteOnPlainMove(c: Core, board: map<BoardCoords, Cell>, colorToMove: PieceColor, move: Move)
    requires move.targetPieceCoords.Null? && move.subMove.Null?
    requires CellAt(board, move.startSquare).Holds? && CellAt(board, move.startSquare).color == colorToMove
    ensures var r := ExecuteOn(c, board, colorToMove, move);
      var h := CellAt(board, move.startSquare).handle;
      && |r.pieces| == |c.pieces|
      && (forall i :: 0 <= i < |r.pieces| ==>
            r.pieces[i] == if c.pieces[i].handle != h then c.pieces[i]
                           else c.pieces[i].(piece := c.pieces[i].piece.(
                                  coords := move.targetSquare,
                                  kind := if move.consequence == Some(PromoteToQueen) then PieceType.Queen
                                          else c.pieces[i].piece.kind)))
      && r.enPassantSquare == if move.consequence.Some? && move.consequence.value.SetEnPassant?
                              then Some(move.consequence.value.square) else Null
  {
  }

  /**
   * The take skips the first listed piece: when the captured board square refers to the piece at
   * index 0 of the list, nothing is removed.
   */
  lemma CaptureSkipsFirstPiece(c: Core, board: map<BoardCoords, Cell>, colorToMove: PieceColor, square: BoardCoords)
    requires square in board && board[square].Holds? && board[square].color == InvertColor(colorToMove)
    requires |c.pieces| > 0 && c.pieces[0].handle == board[square].handle
    ensures CaptureOn(c, board, colorToMove, square) == c
  {
  }

  /**
   * Any other listed opponent piece named by the board is removed, and only that one; an unlisted
   * one (index -1) removes the last piece instead.
   */
  lemma CaptureRemovesListedPiece(c: Core, board: map<BoardCoords, Cell>, colorToMove: PieceColor, square: BoardCoords)
    requires square in board && board[square].Holds? && board[square].color == InvertColor(colorToMove)
    ensures var k := IndexOf(c.pieces, board[square].handle);
      && (k > 0 ==> CaptureOn(c, board, colorToMove, square).pieces == c.pieces[..k] + c.pieces[k + 1..])
      && (k == -1 && |c.pieces| > 0 ==> CaptureOn(c, board, colorToMove, square).pieces == c.pieces[..|c.pieces| - 1])
  {
  }

  /**
   * After a move the en-passant square is either untouched (the start square held no piece of the
   * side to move) or set by a consequence somewhere in the move's chain, or cleared.
   */
  lemma {:induction false} ExecuteOnEnPassant(c: Core, board: map<BoardCoords, Cell>, colorToMove: PieceColor, move: Move)
    ensures var r := ExecuteOn(c, board, colorToMove, move);
      r.enPassantSquare.Some? ==> r.enPassantSquare == c.enPassantSquare || SetEnPassant(r.enPassantSquare.value) in Consequences(move)
    decreases move
  {
    var start := CellAt(board, move.startSquare);
    if start.Holds? && start.color == colorToMove {
      var c2 := Prepare(c, board, colorToMove, move, start.handle);
      PrepareShape(c, board, colorToMove, move, start.handle);
      var c3 := if move.subMove.Some? then ExecuteOn(c2, board, colorToMove, move.subMove.value) else c2;
      if move.subMove.Some? {
        ExecuteOnEnPassant(c2, board, colorToMove, move.subMove.value);
      }
      var r := Conclude(c3, colorToMove, move, start.handle);
      assert ExecuteOn(c, board, colorToMove, move) == r;
      ConcludeEnPassant(c3, colorToMove, move, start.handle);
      if r.enPassantSquare.Some? {
        ConsequencesMembership(move, SetEnPassant(r.enPassantSquare.value));
      }
    }
  }

  /** The last stage keeps the en-passant square unless the move's own consequence sets it. */
  lemma ConcludeEnPassant(c: Core, colorToMove: PieceColor, move: Move, moved: nat)
    ensures var r := Conclude(c, colorToMove, move, moved);
      r.enPassantSquare == c.enPassantSquare
      || (r.enPassantSquare.Some? && move.consequence == Some(SetEnPassant(r.enPassantSquare.value)))
  {
  }

  // ---------------------------------------------------------------------------------------------
  // Handles stay distinct

  /** No piece object is listed twice. */
  predicate DistinctHandles(pieces: seq<Entry>)
  {
    forall i, j :: 0 <= i < j < |pieces| ==> pieces[i].handle != pieces[j].handle
  }

  lemma SameHandlesDistinct(a: seq<Entry>, b: seq<Entry>)
    requires |a| == |b| && forall i :: 0 <= i < |a| ==> a[i].handle == b[i].handle
    requires DistinctHandles(b)
    ensures DistinctHandles(a)
  {
  }

  lemma SpliceDistinct(pieces: seq<Entry>, index: int)
    requires DistinctHandles(pieces)
    ensures DistinctHandles(SpliceOne(pieces, index))
  {
    var r := SpliceOne(pieces, index);
    var k := SpliceStart(|pieces|, index);
    if k < |pieces| {
      forall i, j | 0 <= i < j < |r| ensures r[i].handle != r[j].handle {
        var si := if i < k then i else i + 1;
        var sj := if j < k then j else j + 1;
        assert r[i] == pieces[si] && r[j] == pieces[sj];
      }
    }
  }

  /** Playing a move keeps the listed piece objects distinct. */
  lemma {:induction false} ExecuteOnKeepsDistinct(c: Core, board: map<BoardCoords, Cell>, colorToMove: PieceColor, move: Move)
    requires DistinctHandles(c.pieces)
    ensures DistinctHandles(ExecuteOn(c, board, colorToMove, move).pieces)
    decreases move
  {
    var start := CellAt(board, move.startSquare);
    if start.Holds? && start.color == colorToMove {
      var c2 := Prepare(c, board, colorToMove, move, start.handle);
      PrepareShape(c, board, colorToMove, move, start.handle);
      var c3 := if move.subMove.Some? then ExecuteOn(c2, board, colorToMove, move.subMove.value) else c2;
      if move.subMove.Some? {
        ExecuteOnKeepsDistinct(c2, board, colorToMove, move.subMove.value);
      }
      if move.consequence.Some? {
        ConsequenceKeepsDistinct(c3, colorToMove, move.consequence.value, start.handle);
      }
    }
  }

  lemma ConsequenceKeepsDistinct(c: Core, colorToMove: PieceColor, cons: Consequence, moved: nat)
    requires DistinctHandles(c.pieces)
    ensures DistinctHandles(ConsequenceOn(c, colorToMove, cons, moved).pieces)
  {
    SameHandlesDistinct(ConsequenceOn(c, colorToMove, cons, moved).pieces, c.pieces);
  }

  // ---------------------------------------------------------------------------------------------
  // precomputeMoveData

  /**
   * The table `precomputeMoveData` builds: its outer loop runs over `width` and its inner loop
   * over `height`, so row `rank` exists for `rank < width` and holds `height` entries.
   */
  function EdgeTable(width: nat, height: nat): (t: seq<seq<EdgeData>>)
  {
    seq(width, rank requires 0 <= rank < width => seq(height, file requires 0 <= file < height => EdgeAt(rank, file, width, height)))
  }

  /**
   * Looking a square up in the table gives the edge distances of that square exactly when its
   * rank is below the width and its file below the height (the loop bounds are swapped), and 0
   * otherwise.
   */
  lemma EdgeTableLookup(width: nat, height: nat, sq: BoardCoords, d: SlideDirection)
    ensures EdgeLookup(EdgeTable(width, height), sq, d)
      == if 0 <= sq.rank < width && 0 <= sq.file < height then EdgeAt(sq.rank, sq.file, width, height).Get(d) else 0
  {
  }

  /**
   * On a square board every square of the board finds its own entry, so a slide of up to the
   * looked-up distance stays on the board and one step more leaves it.
   */
  lemma SquareBoardEdgeTableExact(size: nat, sq: BoardCoords, d: SlideDirection, n: int)
    requires TileExists(sq, size, size) && 0 <= n
    ensures var dist := EdgeLookup(EdgeTable(size, size), sq, d);
      && dist >= 0
      && (n <= dist ==> TileExists(Add(sq, Scale(SlideVector(d), n)), size, size))
      && (n == dist + 1 ==> !TileExists(Add(sq, Scale(SlideVector(d), n)), size, size))
  {
    EdgeTableLookup(size, size, sq, d);
    EdgeDistanceIsExact(sq, size, size, d, n);
  }

  // ---------------------------------------------------------------------------------------------
  // checkCheck

  /**
   * `[...new Set(moves.map(move => move.targetSquare))]`. Every target square is a coordinate
   * object of its own, and a `Set` compares objects by reference, so nothing is removed: the list
   * holds one target per move, in order.
   */
  function Targets(moves: seq<Move>): seq<BoardCoords>
  {
    seq(|moves|, i requires 0 <= i < |moves| => moves[i].targetSquare)
  }

  /** The attacked squares keep one entry per move, and a square is listed exactly when some move targets it. */
  lemma TargetsMembership(moves: seq<Move>, sq: BoardCoords)
    ensures |Targets(moves)| == |moves|
    ensures sq in Targets(moves) <==> exists m :: m in moves && m.targetSquare == sq
  {
    if sq in Targets(moves) {
      var i :| 0 <= i < |moves| && Targets(moves)[i] == sq;
      assert moves[i] in moves;
    }
    if exists m :: m in moves && m.targetSquare == sq {
      var m :| m in moves && m.targetSquare == sq;
      var i :| 0 <= i < |moves| && moves[i] == m;
      assert Targets(moves)[i] == sq;
    }
  }

  /** The first listed King of `color` (`pieces.find`), or -1. */
  function FirstKing(pieces: seq<Entry>, color: PieceColor): (r: int)
    ensures -1 <= r < |pieces|
    ensures r >= 0 ==> pieces[r].piece.kind == PieceType.King && pieces[r].piece.color == color
    ensures r >= 0 ==> forall j :: 0 <= j < r ==> !(pieces[j].piece.kind == PieceType.King && pieces[j].piece.color == color)
    ensures r == -1 <==> forall j :: 0 <= j < |pieces| ==> !(pieces[j].piece.kind == PieceType.King && pieces[j].piece.color == color)
  {
    if pieces == [] then -1
    else if pieces[0].piece.kind == PieceType.King && pieces[0].piece.color == color then 0
    else
      var rest := FirstKing(pieces[1..], color);
      if rest == -1 then -1 else rest + 1
  }

  /** Does some move of `moves` target `square`? */
  predicate Targeted(moves: seq<Move>, square: BoardCoords)
  {
    exists i :: 0 <= i < |moves| && Equal(moves[i].targetSquare, square)
  }

  /**
   * What `checkCheck` does to the piece list: the first King of the side to move gets `inCheck`
   * set to whether an opponent move targets its square; without such a King nothing changes.
   */
  function MarkCheck(pieces: seq<Entry>, colorToMove: PieceColor, opponentMoves: seq<Move>): seq<Entry>
  {
    var k := FirstKing(pieces, colorToMove);
    if k < 0 then pieces
    else pieces[k := pieces[k].(piece := pieces[k].piece.(inCheck := Targeted(opponentMoves, pieces[k].piece.coords)))]
  }

  /**
   * Marking check changes only the `inCheck` flag of the first King of the side to move, which
   * becomes true exactly when an opponent move targets that King's square.
   */
  lemma MarkCheckSpec(pieces: seq<Entry>, colorToMove: PieceColor, opponentMoves: seq<Move>)
    ensures var r := MarkCheck(pieces, colorToMove, opponentMoves);
      && |r| == |pieces|
      && (forall i :: 0 <= i < |r| ==> r[i].handle == pieces[i].handle && r[i].piece.(inCheck := false) == pieces[i].piece.(inCheck := false))
    ensures var k := FirstKing(pieces, colorToMove);
      k >= 0 ==> (MarkCheck(pieces, colorToMove, opponentMoves)[k].piece.inCheck
                  <==> exists m :: m in opponentMoves && m.targetSquare == pieces[k].piece.coords)
    ensures forall i :: 0 <= i < |pieces| && i != FirstKing(pieces, colorToMove) ==> MarkCheck(pieces, colorToMove, opponentMoves)[i] == pieces[i]
  {
    var k := FirstKing(pieces, colorToMove);
    if k >= 0 {
      var sq := pieces[k].piece.coords;
      if Targeted(opponentMoves, sq) {
        var i :| 0 <= i < |opponentMoves| && Equal(opponentMoves[i].targetSquare, sq);
        EqualIsEquality(opponentMoves[i].targetSquare, sq);
      }
      if exists m :: m in opponentMoves && m.targetSquare == sq {
        var m :| m in opponentMoves && m.targetSquare == sq;
        var i :| 0 <= i < |opponentMoves| && opponentMoves[i] == m;
        EqualIsEquality(m.targetSquare, sq);
      }
    }
  }

  /** `checkCheck`'s piece marks leave the derived board as it was: the board ignores `inCheck`. */
  lemma {:induction false} BoardIgnoresCheckMarks(a: seq<Entry>, b: seq<Entry>)
    requires |a| == |b|
    requires forall i :: 0 <= i < |a| ==> a[i].handle == b[i].handle && a[i].piece.(inCheck := false) == b[i].piece.(inCheck := false)
    ensures BoardOf(a) == BoardOf(b)
  {
    if a != [] {
      var n := |a| - 1;
      assert a[n].piece.coords == a[n].piece.(inCheck := false).coords;
      assert CellOf(a[n]) == CellOf(b[n]) by {
        assert a[n].piece.kind == a[n].piece.(inCheck := false).kind;
        assert a[n].piece.color == a[n].piece.(inCheck := false).color;
      }
      BoardIgnoresCheckMarks(a[..n], b[..n]);
    }
  }

  // ---------------------------------------------------------------------------------------------
  // tryMovePiece and loadFEN

  /** Does `m` go from `start` to `target`? */
  predicate Matches(m: Move, start: BoardCoords, target: BoardCoords)
  {
    Equal(m.startSquare, start) && Equal(m.targetSquare, target)
  }

  /** `legalMoves.find`: the first move from `start` to `target`. */
  function FirstMatch(moves: seq<Move>, start: BoardCoords, target: BoardCoords): (r: Option<Move>)
    ensures r.Null? <==> forall i :: 0 <= i < |moves| ==> !Matches(moves[i], start, target)
    ensures r.Some? ==> exists k :: (0 <= k < |moves| && moves[k] == r.value && Matches(r.value, start, target)
      && forall j :: 0 <= j < k ==> !Matches(moves[j], start, target))
  {
    if moves == [] then Null
    else if Matches(moves[0], start, target) then Some(moves[0])
    else
      var r := FirstMatch(moves[1..], start, target);
      if r.Some? then
        var k :| 0 <= k < |moves[1..]| && moves[1..][k] == r.value && Matches(r.value, start, target)
          && forall j :: 0 <= j < k ==> !Matches(moves[1..][j], start, target);
        assert moves[k + 1] == r.value;
        r
      else r
  }

  /** The piece objects `loadFEN` creates for `placements`, with fresh handles from `first` on. */
  function FreshEntries(placements: seq<Placement>, first: nat): seq<Entry>
  {
    seq(|placements|, i requires 0 <= i < |placements| =>
      Entry(first + i, Piece(placements[i].kind, placements[i].color, placements[i].square, false)))
  }

  // ---------------------------------------------------------------------------------------------
  // The Game object

  /** `getSizeOfFEN`: the width of the first rank (digit values, one per other character) and the number of ranks. */
  method GetSizeOfFEN(fen: string) returns (size: Size)
    ensures size == SizeOf(fen)
  {
    var width: nat := 0;
    var fenArray := Split(fen);
    var first := fenArray[0];
    var i := 0;
    while i < |first|
      invariant 0 <= i <= |first|
      invariant width == SegmentWidth(first[..i])
    {
      assert DropLast(first[..i + 1]) == first[..i];
      width := width + CharWidth(first[i]);
      i := i + 1;
    }
    assert first[..|first|] == first;
    size := Size(width, |fenArray|);
  }

  class Game {
    var pieces: seq<Entry>
    var colorToMove: PieceColor
    const boardWidth: nat
    const boardHeight: nat
    var legalMoves: seq<Move>
    var board: map<BoardCoords, Cell>
    var enPassantSquare: Option<BoardCoords>
    var opponentMoves: seq<Move>
    var attackedSquares: seq<BoardCoords>
    var numSquaresToEdge: seq<seq<EdgeData>>
    var castleState: CastleState
    /** The handle the next created piece object gets. */
    var nextHandle: nat

    /**
     * The game's invariant: a side is always to move, no piece object is listed twice, every
     * listed handle was handed out, and the edge table is the one built for the board's size.
     */
    predicate Valid()
      reads this
    {
      && colorToMove != PieceColor.None
      && DistinctHandles(pieces)
      && (forall h :: h in Handles(pieces) ==> h < nextHandle)
      && numSquaresToEdge == EdgeTable(boardWidth, boardHeight)
    }

    /** The fields the move generators read. */
    function View(): View
      reads this
    {
      GameMoves.View(board, boardWidth, boardHeight, numSquaresToEdge, castleState, enPassantSquare)
    }

    /** The fields `executeMove` changes. */
    function CoreOf(): Core
      reads this
    {
      Core(pieces, castleState, enPassantSquare)
    }

    /**
     * What `regen` leaves behind when it started from the piece list `before`: the board derived
     * from `before`, the opponent's moves on it, their target squares (one per move), the first King of
     * the side to move marked as in check or not, and the side to move's moves.
     */
    predicate RegeneratedFrom(before: seq<Entry>)
      reads this
    {
      && board == BoardOf(before)
      && opponentMoves == AllMoves(View(), before, InvertColor(colorToMove))
      && attackedSquares == Targets(opponentMoves)
      && pieces == MarkCheck(before, colorToMove, opponentMoves)
      && legalMoves == AllMoves(View(), pieces, colorToMove)
    }

    /** A new game: no pieces, White to move, full castling rights, and the edge table built. */
    constructor(boardWidth: nat, boardHeight: nat)
      ensures Valid()
      ensures this.boardWidth == boardWidth && this.boardHeight == boardHeight
      ensures pieces == [] && colorToMove == PieceColor.White && legalMoves == [] && board == map[]
      ensures enPassantSquare == Null && opponentMoves == [] && attackedSquares == []
      ensures castleState == InitialCastleState && nextHandle == 0
    {
      this.boardWidth := boardWidth;
      this.boardHeight := boardHeight;
      pieces := [];
      colorToMove := PieceColor.White;
      legalMoves := [];
      board := map[];
      enPassantSquare := Null;
      opponentMoves := [];
      attackedSquares := [];
      numSquaresToEdge := [];
      castleState := InitialCastleState;
      nextHandle := 0;
      new;
      PrecomputeMoveData();
    }

    /** `precomputeMoveData`: one row per rank below the width, one entry per file below the height. */
    method PrecomputeMoveData()
      modifies this`numSquaresToEdge
      ensures numSquaresToEdge == EdgeTable(boardWidth, boardHeight)
    {
      numSquaresToEdge := [];
      var rank := 0;
      while rank < boardWidth
        invariant 0 <= rank <= boardWidth
        invariant |numSquaresToEdge| == rank
        invariant forall r :: 0 <= r < rank ==> numSquaresToEdge[r] == EdgeTable(boardWidth, boardHeight)[r]
      {
        numSquaresToEdge := numSquaresToEdge + [[]];
        var file := 0;
        while file < boardHeight
          invariant 0 <= file <= boardHeight
          invariant |numSquaresToEdge| == rank + 1
          invariant forall r :: 0 <= r < rank ==> numSquaresToEdge[r] == EdgeTable(boardWidth, boardHeight)[r]
          invariant numSquaresToEdge[rank] == EdgeTable(boardWidth, boardHeight)[rank][..file]
        {
          numSquaresToEdge := numSquaresToEdge[rank := numSquaresToEdge[rank] + [EdgeAt(rank, file, boardWidth, boardHeight)]];
          file := file + 1;
        }
        rank := rank + 1;
      }
    }

    /** `generateBoard`: the 8 by 8 grid of empty squares, with each listed piece written at its square. */
    method GenerateBoard()
      modifies this`board
      ensures board == BoardOf(pieces)
    {
      var result := EmptyGrid();
      var i := 0;
      while i < |pieces|
        invariant 0 <= i <= |pieces|
        invariant result == BoardOf(pieces[..i])
      {
        assert pieces[..i + 1][..i] == pieces[..i];
        result := result[pieces[i].piece.coords := CellOf(pieces[i])];
        i := i + 1;
      }
      assert pieces[..|pieces|] == pieces;
      board := result;
    }

    /** `generateMoves(color)`: each listed piece of `color` adds its moves, in list order. */
    method GenerateMoves(color: PieceColor) returns (moves: seq<Move>)
      ensures moves == AllMoves(View(), pieces, color)
    {
      moves := [];
      var i := 0;
      while i < |pieces|
        invariant 0 <= i <= |pieces|
        invariant moves == AllMoves(View(), pieces[..i], color)
      {
        assert pieces[..i + 1][..i] == pieces[..i];
        moves := GeneratePieceMoves(moves, color, pieces[i]);
        i := i + 1;
      }
      assert pieces[..|pieces|] == pieces;
    }

    /** The `pieces.forEach` body of `generateMoves`: only a piece of `color` adds moves. */
    method GeneratePieceMoves(moves: seq<Move>, color: PieceColor, entry: Entry) returns (result: seq<Move>)
      ensures result == moves + EntryMoves(View(), color, entry)
    {
      result := moves;
      if entry.piece.color == color {
        result := GenerateTypeMoves(moves, color, entry.piece);
      }
    }

    /** The generators a piece calls by its type: a King slides one step and castles. */
    method GenerateTypeMoves(moves: seq<Move>, color: PieceColor, piece: Piece) returns (result: seq<Move>)
      ensures result == moves + PieceMoves(View(), color, piece)
    {
      result := moves;
      var startSquare := piece.coords;
      if IsSlidingPiece(piece) {
        result := GenerateSlidingMoves(result, color, startSquare, piece);
      } else if piece.kind == PieceType.Pawn {
        result := GeneratePawnMoves(result, color, startSquare, piece);
      } else if piece.kind == PieceType.Knight {
        result := GenerateKnightMoves(result, color, startSquare);
      } else if piece.kind == PieceType.King {
        result := GenerateKingMoves(result, color, startSquare, piece);
      }
    }

    /** A King's moves: its one-step slides, then its castling moves. */
    method GenerateKingMoves(moves: seq<Move>, color: PieceColor, startSquare: BoardCoords, piece: Piece) returns (result: seq<Move>)
      ensures result == moves + SlidingMoves(View(), color, startSquare, piece) + CastlingMoves(View(), color, startSquare)
    {
      result := GenerateSlidingMoves(moves, color, startSquare, piece);
      result := GenerateCastlingMoves(result, color, startSquare);
    }

    /**
     * `generateSlidingMoves`: for each sliding direction of the piece, walk from step 1 up to the
     * smaller of the piece's range and the edge distance.
     */
    method GenerateSlidingMoves(moves: seq<Move>, color: PieceColor, startSquare: BoardCoords, piece: Piece) returns (result: seq<Move>)
      ensures result == moves + SlidingMoves(View(), color, startSquare, piece)
    {
      var directions := SlidingDirections(piece);
      result := SlideInDirections(moves, color, startSquare, piece, directions);
    }

    /** The `directions.forEach` of `generateSlidingMoves`: one walk per direction, in order. */
    method SlideInDirections(moves: seq<Move>, color: PieceColor, startSquare: BoardCoords, piece: Piece, directions: seq<SlideDirection>)
      returns (result: seq<Move>)
      ensures result == moves + DirectionsMoves(View(), color, startSquare, piece, directions)
    {
      var moveDistance := MoveDistanceRange(piece, boardHeight);
      result := moves;
      for i := 0 to |directions|
        invariant result == moves + DirectionsMoves(View(), color, startSquare, piece, directions[..i])
      {
        DirectionsMovesSnoc(View(), color, startSquare, piece, directions, i);
        result := SlideToward(result, color, startSquare, piece, moveDistance, directions[i]);
      }
      assert directions[..|directions|] == directions;
    }

    /** One direction of the `directions.forEach`: the walk's bound is the smaller of the piece's range and the edge distance. */
    method SlideToward(moves: seq<Move>, color: PieceColor, startSquare: BoardCoords, piece: Piece, moveDistance: DistanceRange, direction: SlideDirection)
      returns (result: seq<Move>)
      requires moveDistance == MoveDistanceRange(piece, boardHeight)
      ensures result == moves + RayMoves(View(), color, startSquare, piece, direction, 1, RayLength(View(), startSquare, piece, direction))
    {
      var maxMoveDistance := MaxDistance(moveDistance, EdgeLookup(numSquaresToEdge, startSquare, direction));
      result := SlideAlong(moves, color, startSquare, piece, direction, maxMoveDistance);
    }

    /**
     * One direction of `generateSlidingMoves`: the walk ends at a missing square or one of the
     * mover's own pieces, and right after taking an opponent's piece; a rook's moves revoke the
     * castling side of its file.
     */
    method SlideAlong(moves: seq<Move>, color: PieceColor, startSquare: BoardCoords, piece: Piece, direction: SlideDirection, maxMoveDistance: int)
      returns (result: seq<Move>)
      ensures result == moves + RayMoves(View(), color, startSquare, piece, direction, 1, maxMoveDistance)
    {
      result := moves;
      var n := 1;
      var goOn := true;
      while n <= maxMoveDistance && goOn
        invariant moves + RayMoves(View(), color, startSquare, piece, direction, 1, maxMoveDistance)
          == result + if goOn then RayMoves(View(), color, startSquare, piece, direction, n, maxMoveDistance) else []
        decreases maxMoveDistance - n
      {
        var step;
        step, goOn := SlideStep(color, startSquare, piece, direction, n, maxMoveDistance);
        result := result + step;
        n := n + 1;
      }
    }

    /**
     * Step `n` of a walk: no move at a missing square or one of the mover's own pieces; otherwise
     * the move there, after which the walk goes on unless it took an opponent's piece.
     */
    method SlideStep(color: PieceColor, startSquare: BoardCoords, piece: Piece, direction: SlideDirection, n: int, maxMoveDistance: int)
      returns (step: seq<Move>, goOn: bool)
      requires n <= maxMoveDistance
      ensures RayMoves(View(), color, startSquare, piece, direction, n, maxMoveDistance)
        == step + if goOn then RayMoves(View(), color, startSquare, piece, direction, n + 1, maxMoveDistance) else []
    {
      var targetSquare := Add(startSquare, Scale(SlideVector(direction), n));
      if !TileExists(targetSquare, boardWidth, boardHeight) {
        return [], false;
      }
      var pieceOnTargetSquare := CellAt(board, targetSquare);
      if pieceOnTargetSquare.Color() == color {
        return [], false;
      }
      var consequence: Option<Consequence> := Null;
      if piece.kind == PieceType.Rook {
        var castleSide := if startSquare.file == 0 then SlideDirection.West else SlideDirection.East;
        consequence := Some(RevokeCastling(castleSide));
      }
      var isTake := pieceOnTargetSquare.Color() == InvertColor(color);
      step := [NewMove(startSquare, targetSquare, if isTake then Some(targetSquare) else Null, Null, consequence)];
      goOn := !isTake;
    }

    /**
     * `generatePawnMoves`: the forward steps, ending the whole generator at a missing square; then
     * the diagonal takes.
     */
    method GeneratePawnMoves(moves: seq<Move>, color: PieceColor, startSquare: BoardCoords, piece: Piece) returns (result: seq<Move>)
      requires piece.kind == PieceType.Pawn
      ensures result == moves + PawnMoves(View(), color, startSquare, piece)
    {
      ghost var v := View();
      var moveDistance := MoveDistanceRange(piece, boardHeight);
      assert moveDistance.max.n == PawnRange(piece, v.height);
      var aborted;
      result, aborted := PawnPushMoves(moves, color, startSquare, moveDistance.max.n);
      ghost var pushed := result;
      if !aborted {
        result := PawnTakeMoves(result, color, startSquare);
      }
      PawnMovesFromParts(v, color, startSquare, piece, moves, pushed, aborted, result);
    }

    /**
     * The forward loop of `generatePawnMoves`: steps onto empty squares, a double step setting the
     * en-passant square to the square passed over and a step onto an edge rank promoting; the loop
     * stops at an occupied square, and `aborted` reports the `return` at a missing one.
     */
    method PawnPushMoves(moves: seq<Move>, color: PieceColor, startSquare: BoardCoords, maxDistance: int)
      returns (result: seq<Move>, aborted: bool)
      ensures result == moves + PawnPushes(View(), color, startSquare, 1, maxDistance).moves
      ensures aborted == PawnPushes(View(), color, startSquare, 1, maxDistance).aborted
    {
      result := moves;
      aborted := false;
      var n := 1;
      var goOn := true;
      ghost var rest := PawnPushes(View(), color, startSquare, 1, maxDistance);
      while n <= maxDistance && goOn
        invariant moves + PawnPushes(View(), color, startSquare, 1, maxDistance).moves == result + rest.moves
        invariant PawnPushes(View(), color, startSquare, 1, maxDistance).aborted == rest.aborted
        invariant goOn ==> rest == PawnPushes(View(), color, startSquare, n, maxDistance) && !aborted
        invariant !goOn ==> rest == Pushes([], aborted)
        decreases maxDistance - n
      {
        var step;
        step, goOn, aborted := PawnPushStep(color, startSquare, n, maxDistance);
        result := result + step;
        rest := if goOn then PawnPushes(View(), color, startSquare, n + 1, maxDistance) else Pushes([], aborted);
        n := n + 1;
      }
    }

    /**
     * Step `n` of the forward loop: a missing square ends the whole generator, an occupied one ends
     * the loop, and an empty one gets the step (a double step setting the en-passant square to the
     * square passed over, a step onto an edge rank promoting).
     */
    method PawnPushStep(color: PieceColor, startSquare: BoardCoords, n: int, maxDistance: int)
      returns (step: seq<Move>, goOn: bool, aborted: bool)
      requires n <= maxDistance
      ensures goOn ==> !aborted
      ensures PawnPushes(View(), color, startSquare, n, maxDistance).moves
        == step + if goOn then PawnPushes(View(), color, startSquare, n + 1, maxDistance).moves else []
      ensures PawnPushes(View(), color, startSquare, n, maxDistance).aborted
        == if goOn then PawnPushes(View(), color, startSquare, n + 1, maxDistance).aborted else aborted
    {
      var direction := if color == PieceColor.White then SlideDirection.North else SlideDirection.South;
      var delta := Scale(SlideVector(direction), n);
      var targetSquare := Add(startSquare, delta);
      if !TileExists(targetSquare, boardWidth, boardHeight) {
        return [], false, true;
      }
      var pieceOnTargetSquare := CellAt(board, targetSquare);
      if pieceOnTargetSquare.Kind() != PieceType.None {
        return [], false, false;
      }
      var consequence: Option<Consequence> := Null;
      if n == 2 {
        consequence := Some(SetEnPassant(Add(ScaleByNegativeHalf(delta), targetSquare)));
        assert Add(ScaleByNegativeHalf(delta), targetSquare) == Ahead(color, startSquare, 1);
      } else if targetSquare.rank == boardHeight - 1 || targetSquare.rank == 0 {
        consequence := Some(PromoteToQueen);
      }
      step := [NewMove(startSquare, targetSquare, Null, Null, consequence)];
      goOn, aborted := true, false;
    }

    /**
     * The diagonal loop of `generatePawnMoves`: toward each taking direction, onto an existing
     * square, a take of an opponent's piece there or, on the en-passant square, of the square one
     * step behind it; a move onto an edge rank promotes.
     */
    method PawnTakeMoves(moves: seq<Move>, color: PieceColor, startSquare: BoardCoords) returns (result: seq<Move>)
      ensures result == moves + PawnTakes(View(), color, startSquare, TakingDirections(color))
    {
      var takingDirections := if color == PieceColor.White then [SlideDirection.NorthEast, SlideDirection.NorthWest]
                              else [SlideDirection.SouthEast, SlideDirection.SouthWest];
      ghost var v := View();
      result := moves;
      for i := 0 to |takingDirections|
        invariant result == moves + PawnTakes(v, color, startSquare, takingDirections[..i])
      {
        var step := PawnTakeToward(color, startSquare, takingDirections[i]);
        result := result + step;
        assert takingDirections[..i + 1][..i] == takingDirections[..i];
      }
      assert takingDirections[..|takingDirections|] == takingDirections;
    }

    /** One taking direction of `generatePawnMoves`: a take of an opponent's piece, or an en-passant take. */
    method PawnTakeToward(color: PieceColor, startSquare: BoardCoords, takeDirection: SlideDirection) returns (step: seq<Move>)
      ensures step == PawnTake(View(), color, startSquare, takeDirection)
    {
      var direction := if color == PieceColor.White then SlideDirection.North else SlideDirection.South;
      step := [];
      var targetSquare := Add(startSquare, SlideVector(takeDirection));
      if TileExists(targetSquare, boardWidth, boardHeight) {
        var pieceOnTargetSquare := CellAt(board, targetSquare);
        var consequence: Option<Consequence> := Null;
        if targetSquare.rank == boardHeight - 1 || targetSquare.rank == 0 {
          consequence := Some(PromoteToQueen);
        }
        if pieceOnTargetSquare.Color() == InvertColor(color) {
          step := [NewMove(startSquare, targetSquare, Some(targetSquare), Null, consequence)];
        } else if enPassantSquare.Some? && Equal(enPassantSquare.value, targetSquare) {
          var targetPieceCoords := Add(Scale(SlideVector(direction), -1), targetSquare);
          step := [NewMove(startSquare, targetSquare, Some(targetPieceCoords), Null, consequence)];
        }
      }
    }

    /** `generateKnightMoves`: one try per knight offset onto an existing square that is empty or the opponent's. */
    method GenerateKnightMoves(moves: seq<Move>, color: PieceColor, startSquare: BoardCoords) returns (result: seq<Move>)
      ensures result == moves + KnightMoves(View(), color, startSquare)
    {
      result := KnightJumps(moves, color, startSquare, KnightDirections);
    }

    /** The `knightDirections.forEach` of `generateKnightMoves`: one try per offset, in order. */
    method KnightJumps(moves: seq<Move>, color: PieceColor, startSquare: BoardCoords, offsets: seq<BoardCoords>) returns (result: seq<Move>)
      ensures result == moves + KnightMovesBy(View(), color, startSquare, offsets)
    {
      result := moves;
      var i := 0;
      while i < |offsets|
        invariant 0 <= i <= |offsets|
        invariant result == moves + KnightMovesBy(View(), color, startSquare, offsets[..i])
      {
        var step := KnightJump(color, startSquare, offsets[i]);
        result := result + step;
        assert offsets[..i + 1][..i] == offsets[..i];
        i := i + 1;
      }
      assert offsets[..|offsets|] == offsets;
    }

    /** One try of `generateKnightMoves`: onto an existing square that is empty or the opponent's. */
    method KnightJump(color: PieceColor, startSquare: BoardCoords, offset: BoardCoords) returns (step: seq<Move>)
      ensures step == KnightMove(View(), color, startSquare, offset)
    {
      step := [];
      var targetSquare := Add(startSquare, offset);
      if TileExists(targetSquare, boardWidth, boardHeight) && targetSquare in board {
        var pieceOnTargetSquare := board[targetSquare];
        if pieceOnTargetSquare.Color() == InvertColor(color) {
          step := [NewMove(startSquare, targetSquare, Some(targetSquare))];
        } else if pieceOnTargetSquare.Color() == PieceColor.None {
          step := [NewMove(startSquare, targetSquare)];
        }
      }
    }

    /**
     * `generateCastlingMoves`: for each side still in the mover's rights, when the two squares
     * toward it exist and are empty, the king's two-square move with the linked rook move.
     */
    method GenerateCastlingMoves(moves: seq<Move>, color: PieceColor, startSquare: BoardCoords) returns (result: seq<Move>)
      ensures result == moves + CastlingMoves(View(), color, startSquare)
    {
      result := moves;
      if color == PieceColor.None {
        return;
      }
      var sides := castleState.Rights(color);
      var i := 0;
      while i < |sides|
        invariant 0 <= i <= |sides|
        invariant result == moves + CastleMovesToward(View(), startSquare, sides[..i])
      {
        var step := CastleToward(startSquare, sides[i]);
        result := result + step;
        assert sides[..i + 1][..i] == sides[..i];
        i := i + 1;
      }
      assert sides[..|sides|] == sides;
    }

    /**
     * One side of `generateCastlingMoves`: the two squares toward `direction` are checked in turn,
     * and when both exist and are empty the king's two-square move with the linked rook move is made.
     */
    method CastleToward(startSquare: BoardCoords, direction: SlideDirection) returns (step: seq<Move>)
      ensures step == CastleMove(View(), startSquare, direction)
    {
      var rookFile := if direction == SlideDirection.East then 7 else 0;
      var rookStartPosition := BoardCoords(rookFile, startSquare.rank);
      var rookEndPosition := Add(startSquare, SlideVector(direction));
      var subMove := NewMove(rookStartPosition, rookEndPosition);
      var targetSquare := startSquare;
      var blocked := false;
      var n := 1;
      while n <= 2 && !blocked
        invariant 1 <= n <= 3
        invariant !blocked ==> forall k :: 1 <= k < n ==>
          TileExists(Add(startSquare, Scale(SlideVector(direction), k)), boardWidth, boardHeight)
          && CellAt(board, Add(startSquare, Scale(SlideVector(direction), k))).Kind() == PieceType.None
        invariant !blocked && n > 1 ==> targetSquare == Add(startSquare, Scale(SlideVector(direction), n - 1))
        invariant blocked ==> CastleMove(View(), startSquare, direction) == []
        decreases 3 - n, !blocked
      {
        targetSquare := Add(startSquare, Scale(SlideVector(direction), n));
        if !TileExists(targetSquare, boardWidth, boardHeight) || CellAt(board, targetSquare).Kind() != PieceType.None {
          blocked := true;
        } else {
          n := n + 1;
        }
      }
      step := if blocked then [] else [NewMove(startSquare, targetSquare, Null, Some(subMove), Some(ClearCastling))];
    }

    /**
     * `checkCheck`: the attacked squares become the targets of the opponent's moves, one per move, and
     * the first King of the side to move is marked as in check exactly when one of them is its
     * square.
     */
    method CheckCheck()
      modifies this`attackedSquares, this`pieces
      ensures attackedSquares == Targets(opponentMoves)
      ensures pieces == MarkCheck(old(pieces), colorToMove, opponentMoves)
    {
      attackedSquares := Targets(opponentMoves);
      var king := FirstKing(pieces, colorToMove);
      if king < 0 {
        return;
      }
      var kingCoords := pieces[king].piece.coords;
      var attacked := false;
      var i := 0;
      while i < |opponentMoves|
        invariant 0 <= i <= |opponentMoves|
        invariant attacked <==> exists j :: 0 <= j < i && Equal(opponentMoves[j].targetSquare, kingCoords)
      {
        if Equal(opponentMoves[i].targetSquare, kingCoords) {
          attacked := true;
        }
        i := i + 1;
      }
      pieces := pieces[king := pieces[king].(piece := pieces[king].piece.(inCheck := attacked))];
    }

    /**
     * `regen`: derive the board, generate the opponent's moves, mark check, and generate the side
     * to move's moves.
     */
    method Regen()
      modifies this`board, this`opponentMoves, this`attackedSquares, this`pieces, this`legalMoves
      ensures RegeneratedFrom(old(pieces))
    {
      GenerateBoard();
      opponentMoves := GenerateMoves(InvertColor(colorToMove));
      CheckCheck();
      legalMoves := GenerateMoves(colorToMove);
    }

    /** A consequence run on this game, with the moved piece object's handle. */
    method RunConsequence(consequence: Consequence, moved: nat)
      modifies this`pieces, this`castleState, this`enPassantSquare
      ensures CoreOf() == ConsequenceOn(old(CoreOf()), colorToMove, consequence, moved)
    {
      match consequence
      case RevokeCastling(castleSide) =>
        if colorToMove != PieceColor.None {
          castleState := castleState.WithRights(colorToMove, RemoveFirst(castleState.Rights(colorToMove), castleSide));
        }
      case ClearCastling =>
        if colorToMove != PieceColor.None {
          castleState := castleState.WithRights(colorToMove, []);
        }
      case SetEnPassant(square) =>
        enPassantSquare := Some(square);
      case PromoteToQueen =>
        pieces := WithEdit(pieces, moved, PromoteTo(PieceType.Queen));
    }

    /**
     * `executeMove`: unless the board's start square holds a piece of the side to move, nothing
     * happens; otherwise that piece object moves to the target, the en-passant square is cleared,
     * a listed opponent piece on the capture square is removed (but never the first listed one),
     * the sub-move is played, and the consequence runs. The board is not rewritten.
     */
    method ExecuteMove(move: Move)
      modifies this`pieces, this`castleState, this`enPassantSquare
      ensures CoreOf() == ExecuteOn(old(CoreOf()), board, colorToMove, move)
      decreases move
    {
      var piece := CellAt(board, move.startSquare);
      if !piece.Holds? || piece.color != colorToMove {
        return;
      }
      pieces := WithEdit(pieces, piece.handle, MoveTo(move.targetSquare));
      enPassantSquare := Null;
      if move.targetPieceCoords.Some? && move.targetPieceCoords.value in board {
        var targetPiece := board[move.targetPieceCoords.value];
        if targetPiece.Holds? && targetPiece.color == InvertColor(colorToMove) {
          var targetPieceIndex := IndexOf(pieces, targetPiece.handle);
          if targetPieceIndex != 0 {
            pieces := SpliceOne(pieces, targetPieceIndex);
          }
        }
      }
      if move.subMove.Some? {
        ExecuteMove(move.subMove.value);
      }
      if move.consequence.Some? {
        RunConsequence(move.consequence.value, piece.handle);
      }
    }

    /**
     * `tryMovePiece`: the first legal move from `startSquare` to `targetSquare` is played, the side
     * to move changes and everything derived is regenerated; without such a move nothing changes.
     */
    method TryMovePiece(startSquare: BoardCoords, targetSquare: BoardCoords) returns (moved: bool)
      requires Valid()
      modifies this
      ensures Valid()
      ensures moved <==> FirstMatch(old(legalMoves), startSquare, targetSquare).Some?
      ensures !moved ==> unchanged(this)
      ensures moved ==>
        var c := ExecuteOn(old(CoreOf()), old(board), old(colorToMove), FirstMatch(old(legalMoves), startSquare, targetSquare).value);
        && colorToMove == InvertColor(old(colorToMove))
        && castleState == c.castleState && enPassantSquare == c.enPassantSquare
        && RegeneratedFrom(c.pieces)
        && nextHandle == old(nextHandle) && numSquaresToEdge == old(numSquaresToEdge)
    {
      var requestedMove := FirstMatch(legalMoves, startSquare, targetSquare);
      if requestedMove.Null? {
        return false;
      }
      ExecuteMove(requestedMove.value);
      ghost var played := pieces;
      ExecuteOnKeepsDistinct(old(CoreOf()), board, colorToMove, requestedMove.value);
      ExecuteOnKeepsHandles(old(CoreOf()), board, colorToMove, requestedMove.value);
      colorToMove := InvertColor(colorToMove);
      Regen();
      KeepHandlesUnderCheckMarks(played, colorToMove, opponentMoves);
      moved := true;
    }

    /**
     * `loadFEN`: when the field's size is the board's, the piece list is replaced by one new piece
     * object per piece letter, in reading order, and everything derived is regenerated; otherwise
     * nothing changes.
     */
    method LoadFEN(fen: string)
      requires Valid()
      modifies this
      ensures Valid()
      ensures SizeOf(fen) != Size(boardWidth, boardHeight) ==> unchanged(this)
      ensures SizeOf(fen) == Size(boardWidth, boardHeight) ==>
        && RegeneratedFrom(FreshEntries(Placements(fen, boardHeight), old(nextHandle)))
        && nextHandle == old(nextHandle) + |Placements(fen, boardHeight)|
        && colorToMove == old(colorToMove) && castleState == old(castleState)
        && enPassantSquare == old(enPassantSquare) && numSquaresToEdge == old(numSquaresToEdge)
    {
      var size := GetSizeOfFEN(fen);
      if size.width != boardWidth || size.height != boardHeight {
        return;
      }
      var loaded := ReadPieces(fen, size.height, nextHandle);
      var handle := nextHandle + |loaded|;
      FreshEntriesValid(Placements(fen, boardHeight), nextHandle);
      pieces := loaded;
      nextHandle := handle;
      Regen();
      KeepHandlesUnderCheckMarks(loaded, colorToMove, opponentMoves);
    }
  }

  /**
   * The character loop of `loadFEN`: `/` moves to file 0 of the rank below, a digit skips that
   * many files, and any other character places a new piece object (White when upper case) and
   * moves one file on; the objects get consecutive handles from `first`.
   */
  method ReadPieces(fen: string, height: int, first: nat) returns (loaded: seq<Entry>)
    ensures loaded == FreshEntries(Placements(fen, height), first)
  {
    loaded := [];
    var handle := first;
    var file := 0;
    var rank := height - 1;
    for i := 0 to |fen|
      invariant Cursor(file, rank) == CursorAfter(fen[..i], height)
      invariant loaded == FreshEntries(Placements(fen[..i], height), first)
      invariant handle == first + |loaded|
    {
      var c := fen[i];
      assert DropLast(fen[..i + 1]) == fen[..i] && Last(fen[..i + 1]) == c;
      if c == '/' {
        file := 0;
        rank := rank - 1;
      } else if !IsDigit(c) {
        var coords := BoardCoords(file, rank);
        loaded := loaded + [Entry(handle, Piece(CharToPieceType(c), if c == ToUpper(c) then PieceColor.White else PieceColor.Black, coords, false))];
        handle := handle + 1;
        file := file + 1;
      } else {
        file := file + DigitValue(c);
      }
    }
    assert fen[..|fen|] == fen;
  }

  /** A pawn's moves are its forward steps, then, unless a step ran off the board, its diagonal moves. */
  /** The pushes, then the diagonals unless a push left the board, make up the pawn's moves. */
  lemma PawnMovesFromParts(v: View, color: PieceColor, start: BoardCoords, piece: Piece,
                           moves: seq<Move>, pushed: seq<Move>, aborted: bool, result: seq<Move>)
    requires pushed == moves + PawnPushes(v, color, start, 1, PawnRange(piece, v.height)).moves
    requires aborted == PawnPushes(v, color, start, 1, PawnRange(piece, v.height)).aborted
    requires result == if aborted then pushed else pushed + PawnTakes(v, color, start, TakingDirections(color))
    ensures result == moves + PawnMoves(v, color, start, piece)
  {
    var pushes := PawnPushes(v, color, start, 1, PawnRange(piece, v.height));
    if !aborted {
      assert (moves + pushes.moves) + PawnTakes(v, color, start, TakingDirections(color))
          == moves + (pushes.moves + PawnTakes(v, color, start, TakingDirections(color)));
    }
  }

  lemma PawnMovesSplit(v: View, color: PieceColor, start: BoardCoords, piece: Piece)
    requires piece.kind == PieceType.Pawn
    ensures var pushes := PawnPushes(v, color, start, 1, MoveDistanceRange(piece, v.height).max.n);
      PawnMoves(v, color, start, piece) == if pushes.aborted then pushes.moves else pushes.moves + PawnTakes(v, color, start, TakingDirections(color))
  {
  }

  /** The piece objects `loadFEN` creates are distinct and take the handles from `first` on. */
  lemma FreshEntriesValid(placements: seq<Placement>, first: nat)
    ensures DistinctHandles(FreshEntries(placements, first))
    ensures forall h :: h in Handles(FreshEntries(placements, first)) ==> first <= h < first + |placements|
  {
  }

  /** Marking check keeps the listed handles, so it keeps them distinct and already handed out. */
  lemma KeepHandlesUnderCheckMarks(pieces: seq<Entry>, colorToMove: PieceColor, opponentMoves: seq<Move>)
    ensures Handles(MarkCheck(pieces, colorToMove, opponentMoves)) == Handles(pieces)
    ensures DistinctHandles(pieces) ==> DistinctHandles(MarkCheck(pieces, colorToMove, opponentMoves))
  {
    MarkCheckSpec(pieces, colorToMove, opponentMoves);
    var r := MarkCheck(pieces, colorToMove, opponentMoves);
    SameHandles(r, pieces);
    if DistinctHandles(pieces) {
      SameHandlesDistinct(r, pieces);
    }
  }
}
