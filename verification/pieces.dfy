/**
 * Per-type movement capability of a piece (src/game/Piece.class.ts): the direction tables, which
 * types slide and where, how far a piece may move, the pawn ranks, and the FEN letter mapping.
 */
module Pieces {
  import opened Enums
  import opened Utils

  /** A piece's fields; a None-typed, None-coloured piece at (-1, -1) is an empty square. */
  datatype Piece = Piece(kind: PieceType, color: PieceColor, coords: BoardCoords, inCheck: bool)

  /** `new Piece()` with every constructor argument defaulted. */
  const EmptyPiece := Piece(PieceType.None, PieceColor.None, BoardCoords(-1, -1), false)

  /** The `SlideDirections` table: one unit step per direction. */
  function SlideVector(d: SlideDirection): BoardCoords
  {
    match d
    case North => BoardCoords(0, 1)
    case South => BoardCoords(0, -1)
    case West => BoardCoords(-1, 0)
    case East => BoardCoords(1, 0)
    case NorthEast => BoardCoords(1, 1)
    case SouthWest => BoardCoords(-1, -1)
    case SouthEast => BoardCoords(1, -1)
    case NorthWest => BoardCoords(-1, 1)
  }

  /** The `KnightDirections` table, in the source's order. */
  const KnightDirections: seq<BoardCoords> := [
    BoardCoords(1, 2), BoardCoords(2, 1), BoardCoords(2, -1), BoardCoords(1, -2),
    BoardCoords(-1, -2), BoardCoords(-2, -1), BoardCoords(-2, 1), BoardCoords(-1, 2)]

  predicate IsUnitStep(v: BoardCoords)
  {
    -1 <= v.file <= 1 && -1 <= v.rank <= 1 && v != Zero
  }

  predicate IsDiagonal(d: SlideDirection)
  {
    SlideVector(d).file != 0 && SlideVector(d).rank != 0
  }

  function Abs(x: int): nat { if x < 0 then -x else x }

  /** The eight slide directions are pairwise distinct unit steps. */
  lemma SlideVectorsAreDistinctUnitSteps()
    ensures forall d :: IsUnitStep(SlideVector(d))
    ensures forall d1, d2 :: d1 != d2 ==> SlideVector(d1) != SlideVector(d2)
  {
  }

  /** The eight knight offsets are pairwise distinct, and each moves 1 square one way and 2 the other. */
  lemma KnightDirectionsAreKnightJumps()
    ensures |KnightDirections| == 8
    ensures forall i, j :: 0 <= i < j < 8 ==> KnightDirections[i] != KnightDirections[j]
    ensures forall i :: 0 <= i < 8 ==>
      (Abs(KnightDirections[i].file) == 1 && Abs(KnightDirections[i].rank) == 2) ||
      (Abs(KnightDirections[i].file) == 2 && Abs(KnightDirections[i].rank) == 1)
  {
  }

  /** The eight directions, diagonals first, as the Queen's and King's direction list gives them. */
  const AllSlideDirections: seq<SlideDirection> :=
    [NorthEast, NorthWest, SouthEast, SouthWest, North, South, East, West]

  lemma AllSlideDirectionsListed()
    ensures forall d :: d in AllSlideDirections
  {
    forall d ensures d in AllSlideDirections {
      match d
      case NorthEast => assert AllSlideDirections[0] == d;
      case NorthWest => assert AllSlideDirections[1] == d;
      case SouthEast => assert AllSlideDirections[2] == d;
      case SouthWest => assert AllSlideDirections[3] == d;
      case North => assert AllSlideDirections[4] == d;
      case South => assert AllSlideDirections[5] == d;
      case East => assert AllSlideDirections[6] == d;
      case West => assert AllSlideDirections[7] == d;
    }
  }

  /** `isSlidingPiece`. */
  predicate IsSlidingPiece(p: Piece)
  {
    p.kind == PieceType.Bishop || p.kind == PieceType.Queen || p.kind == PieceType.Rook
  }

  /** `getSlidingDirections`: the directions a piece of this type slides in, in table order. */
  function SlidingDirections(p: Piece): seq<SlideDirection>
  {
    match p.kind
    case Bishop => [NorthEast, NorthWest, SouthEast, SouthWest]
    case Queen | King => AllSlideDirections
    case Rook => [North, South, East, West]
    case _ => []
  }

  /**
   * The four diagonals for a Bishop, the four orthogonals for a Rook, all eight for a Queen or a
   * King, and none for any other type; never a direction twice.
   */
  lemma SlidingDirectionsSpec(p: Piece)
    ensures var r := SlidingDirections(p); forall i, j :: 0 <= i < j < |r| ==> r[i] != r[j]
    ensures p.kind == PieceType.Bishop ==> forall d :: d in SlidingDirections(p) <==> IsDiagonal(d)
    ensures p.kind == PieceType.Rook ==> forall d :: d in SlidingDirections(p) <==> !IsDiagonal(d)
    ensures p.kind == PieceType.Queen || p.kind == PieceType.King ==> forall d :: d in SlidingDirections(p)
    ensures p.kind !in {PieceType.Bishop, PieceType.Rook, PieceType.Queen, PieceType.King} ==> SlidingDirections(p) == []
  {
    AllSlideDirectionsListed();
  }

  /** `isOnPawnStartRank`: rank 1 for White, `boardHeight - 2` for any other colour. */
  predicate IsOnPawnStartRank(p: Piece, boardHeight: int)
  {
    if p.color == PieceColor.White then p.coords.rank == 1 else p.coords.rank == boardHeight - 2
  }

  /** `isOnPromotionRank`: the last rank for White, rank 0 for any other colour. */
  predicate IsOnPromotionRank(p: Piece, boardHeight: int)
  {
    if p.color == PieceColor.White then p.coords.rank == boardHeight - 1 else p.coords.rank == 0
  }

  /**
   * The pawn ranks of the two sides mirror each other (rank r for White is rank `boardHeight - 1 - r`
   * for Black), and a pawn's start rank is its promotion rank only on a board two ranks high.
   */
  lemma PawnRanksMirror(p: Piece, boardHeight: int)
    requires p.color == PieceColor.White
    ensures var q := p.(color := PieceColor.Black, coords := BoardCoords(p.coords.file, boardHeight - 1 - p.coords.rank));
      && (IsOnPawnStartRank(p, boardHeight) <==> IsOnPawnStartRank(q, boardHeight))
      && (IsOnPromotionRank(p, boardHeight) <==> IsOnPromotionRank(q, boardHeight))
    ensures forall c :: IsOnPawnStartRank(p.(color := c), boardHeight) && IsOnPromotionRank(p.(color := c), boardHeight) ==> boardHeight == 2
  {
  }

  /** An upper bound on a move distance; `Unbounded` is the source's `Infinity`. */
  datatype Bound = Finite(n: nat) | Unbounded

  datatype DistanceRange = DistanceRange(min: nat, max: Bound)

  /**
   * `getMoveDistanceRange`: at least 1 square; at most 1 for a King or a Knight, 2 for a pawn on
   * its start rank and 1 for any other pawn, and unbounded for sliders and the None type.
   */
  function MoveDistanceRange(p: Piece, boardHeight: int): (r: DistanceRange)
    ensures r.min == 1
    ensures p.kind == PieceType.King || p.kind == PieceType.Knight ==> r.max == Finite(1)
    ensures p.kind == PieceType.Pawn ==> r.max == Finite(if IsOnPawnStartRank(p, boardHeight) then 2 else 1)
    ensures r.max == Unbounded <==> IsSlidingPiece(p) || p.kind == PieceType.None
  {
    var max :=
      match p.kind
      case King => Finite(1)
      case Knight => Finite(1)
      case Pawn => if IsOnPawnStartRank(p, boardHeight) then Finite(2) else Finite(1)
      case _ => Unbounded;
    DistanceRange(1, max)
  }

  /** ASCII `toLowerCase` of one character. */
  function ToLower(c: char): char
  {
    if 'A' <= c <= 'Z' then (c as int + 32) as char else c
  }

  /** ASCII `toUpperCase` of one character. */
  function ToUpper(c: char): char
  {
    if 'a' <= c <= 'z' then (c as int - 32) as char else c
  }

  /** `charToPieceType`: the FEN letter of a piece, in either case; any other character gives None. */
  function CharToPieceType(c: char): PieceType
  {
    match ToLower(c)
    case 'b' => PieceType.Bishop
    case 'q' => PieceType.Queen
    case 'r' => PieceType.Rook
    case 'k' => PieceType.King
    case 'n' => PieceType.Knight
    case 'p' => PieceType.Pawn
    case _ => PieceType.None
  }

  /** `pieceTypeToChar`: the lower-case FEN letter of a type, and the empty string for None. */
  function PieceTypeToChar(t: PieceType): string
  {
    match t
    case Bishop => "b"
    case Queen => "q"
    case Rook => "r"
    case King => "k"
    case Knight => "n"
    case Pawn => "p"
    case None => ""
  }

  /**
   * The letter mapping round-trips for every real type, in both cases, the None type has no letter,
   * and only the six piece letters (in either case) decode to a real type.
   */
  lemma PieceLetterRoundTrip(t: PieceType, c: char)
    ensures t != PieceType.None ==>
      |PieceTypeToChar(t)| == 1 &&
      CharToPieceType(PieceTypeToChar(t)[0]) == t &&
      CharToPieceType(ToUpper(PieceTypeToChar(t)[0])) == t
    ensures t == PieceType.None ==> PieceTypeToChar(t) == ""
    ensures CharToPieceType(c) == CharToPieceType(ToUpper(c)) == CharToPieceType(ToLower(c))
    ensures CharToPieceType(c) != PieceType.None <==> ToLower(c) in "bqrknp"
    ensures CharToPieceType(c) != PieceType.None ==> PieceTypeToChar(CharToPieceType(c)) == [ToLower(c)]
  {
  }
}
