/** The three small enumerations shared by every part of the engine (src/game/enums.ts). */
module Enums {

  datatype PieceType = None | King | Pawn | Knight | Bishop | Rook | Queen

  datatype PieceColor = None | White | Black

  datatype SlideDirection = NorthEast | NorthWest | SouthEast | SouthWest | North | South | East | West

  /** `invertColor`: White becomes Black, and every other colour (Black, but also None) becomes White. */
  function InvertColor(color: PieceColor): (r: PieceColor)
    ensures r != PieceColor.None
    ensures r == PieceColor.Black <==> color == PieceColor.White
  {
    if color == PieceColor.White then PieceColor.Black else PieceColor.White
  }

  /** On the two playing colours, inverting twice gives the colour back. */
  lemma InvertColorInvolutive(color: PieceColor)
    requires color != PieceColor.None
    ensures InvertColor(InvertColor(color)) == color
    ensures InvertColor(color) != color
  {
  }
}
