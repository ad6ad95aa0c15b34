/**
 * The piece-placement field of Forsyth-Edwards Notation as both engines read it
 * (`getSizeOfFEN` and the character loop of `loadFEN`): `/` separates ranks, listed from the top
 * rank down; a digit skips that many files; any other character places a piece whose type comes
 * from its letter and whose colour is White when the character equals its upper-case form.
 */
module Fen {
  import opened Enums
  import opened Utils
  import opened Pieces
  import opened Board

  /** The characters `parseInt` reads as a number when given a single character. */
  predicate IsDigit(c: char) { '0' <= c <= '9' }

  function DigitValue(c: char): nat
    requires IsDigit(c)
  {
    c as int - '0' as int
  }

  /** How many files one character of a rank spans when measuring its width. */
  function CharWidth(c: char): nat
  {
    if IsDigit(c) then DigitValue(c) else 1
  }

  function Last<T>(s: seq<T>): T
    requires |s| > 0
  {
    s[|s| - 1]
  }

  function DropLast<T>(s: seq<T>): seq<T>
    requires |s| > 0
  {
    s[..|s| - 1]
  }

  /** `fen.split('/')`: the maximal slash-free pieces of `s`, in order; there is always at least one. */
  function Split(s: string): (r: seq<string>)
    ensures |r| >= 1
    decreases |s|
  {
    if s == [] then [[]]
    else
      var init := Split(DropLast(s));
      if Last(s) == '/' then init + [[]]
      else DropLast(init) + [Last(init) + [Last(s)]]
  }

  /** Joins segments with `/` between them. */
  function Join(segments: seq<string>): string
    requires |segments| >= 1
  {
    if |segments| == 1 then segments[0]
    else Join(DropLast(segments)) + "/" + Last(segments)
  }

  function CountSlashes(s: string): nat
    decreases |s|
  {
    if s == [] then 0 else CountSlashes(DropLast(s)) + (if Last(s) == '/' then 1 else 0)
  }

  /** Splitting loses nothing: joining the segments with `/` gives the text back. */
  lemma {:induction false} SplitJoin(s: string)
    ensures Join(Split(s)) == s
    decreases |s|
  {
    if s != [] {
      var init := Split(DropLast(s));
      SplitJoin(DropLast(s));
      if Last(s) == '/' {
        assert Split(s) == init + [[]];
        assert DropLast(init + [[]]) == init;
      } else {
        var r := DropLast(init) + [Last(init) + [Last(s)]];
        assert Split(s) == r;
        if |init| == 1 {
          assert Join(r) == Last(init) + [Last(s)];
        } else {
          assert DropLast(r) == DropLast(init);
          assert Join(init) == Join(DropLast(init)) + "/" + Last(init);
        }
      }
      assert s == DropLast(s) + [Last(s)];
    }
  }

  /** No segment holds a slash, and there is one segment more than there are slashes. */
  lemma {:induction false} SplitSegments(s: string)
    ensures |Split(s)| == CountSlashes(s) + 1
    ensures forall i :: 0 <= i < |Split(s)| ==> '/' !in Split(s)[i]
    decreases |s|
  {
    if s != [] {
      SplitSegments(DropLast(s));
    }
  }

  /** The width the size check measures for one rank: digit values plus one per other character. */
  function SegmentWidth(segment: string): nat
    decreases |segment|
  {
    if segment == [] then 0 else SegmentWidth(DropLast(segment)) + CharWidth(Last(segment))
  }

  /** A rank's width never shrinks as characters are appended. */
  lemma {:induction false} SegmentWidthPrefix(segment: string, n: nat)
    requires n <= |segment|
    ensures SegmentWidth(segment[..n]) <= SegmentWidth(segment)
    decreases |segment|
  {
    if n < |segment| {
      assert DropLast(segment)[..n] == segment[..n];
      SegmentWidthPrefix(DropLast(segment), n);
    } else {
      assert segment[..n] == segment;
    }
  }

  datatype Size = Size(width: nat, height: nat)

  /** `getSizeOfFEN`: the width of the first rank and the number of ranks. */
  function SizeOf(fen: string): Size
  {
    Size(SegmentWidth(Split(fen)[0]), |Split(fen)|)
  }

  /** Where the next character of the field is written: file, and rank counted from the bottom. */
  datatype Cursor = Cursor(file: int, rank: int)

  /** One step of the `loadFEN` loop. */
  function Advance(cursor: Cursor, c: char): Cursor
  {
    if c == '/' then Cursor(0, cursor.rank - 1)
    else if IsDigit(c) then Cursor(cursor.file + DigitValue(c), cursor.rank)
    else Cursor(cursor.file + 1, cursor.rank)
  }

  /** The cursor after reading `prefix`, starting at file 0 of the top rank `height - 1`. */
  function CursorAfter(prefix: string, height: int): Cursor
    decreases |prefix|
  {
    if prefix == [] then Cursor(0, height - 1) else Advance(CursorAfter(DropLast(prefix), height), Last(prefix))
  }

  /** A piece written by `loadFEN`: its square, type and colour. */
  datatype Placement = Placement(square: BoardCoords, kind: PieceType, color: PieceColor)

  /** `char == char.toUpperCase() ? White : Black`. */
  function LetterColor(c: char): PieceColor
  {
    if c == ToUpper(c) then PieceColor.White else PieceColor.Black
  }

  /** Does character `c` place a piece? Everything but `/` and the digits does. */
  predicate PlacesPiece(c: char) { c != '/' && !IsDigit(c) }

  /** The piece written for character `c` read at `cursor`. */
  function PlacementAt(cursor: Cursor, c: char): Placement
  {
    Placement(BoardCoords(cursor.file, cursor.rank), CharToPieceType(c), LetterColor(c))
  }

  /** The pieces `loadFEN` writes while reading `prefix`, in reading order. */
  function Placements(prefix: string, height: int): seq<Placement>
    decreases |prefix|
  {
    if prefix == [] then []
    else
      var init := DropLast(prefix);
      Placements(init, height)
        + (if PlacesPiece(Last(prefix)) then [PlacementAt(CursorAfter(init, height), Last(prefix))] else [])
  }

  /**
   * The cursor is always on rank `height - 1 - (slashes read)`, at the width of the rank read so
   * far; so each rank starts again at file 0.
   */
  lemma {:induction false} CursorPosition(prefix: string, height: int)
    ensures CursorAfter(prefix, height).rank == height - 1 - CountSlashes(prefix)
    ensures CursorAfter(prefix, height).file == SegmentWidth(Last(Split(prefix)))
    decreases |prefix|
  {
    if prefix != [] {
      CursorPosition(DropLast(prefix), height);
    }
  }

  /**
   * Splitting a prefix of `s`: its segments are those of `s` except the last, which is a prefix
   * of the corresponding segment of `s`.
   */
  lemma {:induction false} SplitOfPrefix(s: string, n: nat)
    requires n <= |s|
    ensures |Split(s[..n])| <= |Split(s)|
    ensures forall i :: 0 <= i < |Split(s[..n])| - 1 ==> Split(s[..n])[i] == Split(s)[i]
    ensures var k := |Split(s[..n])| - 1; Split(s[..n])[k] <= Split(s)[k]
    decreases |s|
  {
    if n == |s| {
      assert s[..n] == s;
    } else {
      assert DropLast(s)[..n] == s[..n];
      SplitOfPrefix(DropLast(s), n);
    }
  }

  /** Every rank of the field has the same width. */
  predicate Rectangular(fen: string, width: int)
  {
    forall i :: 0 <= i < |Split(fen)| ==> SegmentWidth(Split(fen)[i]) == width
  }

  /**
   * When every rank has the width the size check measured and there are `height` ranks, every
   * piece `loadFEN` writes lands on a square of the `width` by `height` board.
   */
  lemma PlacementsOnBoard(fen: string, width: int, height: int)
    requires |Split(fen)| == height && Rectangular(fen, width)
    ensures forall pl :: pl in Placements(fen, height) ==> TileExists(pl.square, width, height)
  {
    PlacementsOnBoardUpTo(fen, |fen|, width, height);
    assert fen[..|fen|] == fen;
  }

  lemma {:induction false} PlacementsOnBoardUpTo(fen: string, n: nat, width: int, height: int)
    requires n <= |fen|
    requires |Split(fen)| == height && Rectangular(fen, width)
    ensures forall pl :: pl in Placements(fen[..n], height) ==> TileExists(pl.square, width, height)
  {
    if n > 0 {
      var p := fen[..n - 1];
      assert DropLast(fen[..n]) == p;
      PlacementsOnBoardUpTo(fen, n - 1, width, height);
      var c := fen[n - 1];
      if PlacesPiece(c) {
        var cursor := CursorAfter(p, height);
        CursorPosition(p, height);
        SplitSegments(p);
        SplitOfPrefix(fen, n);
        SplitOfPrefix(fen, n - 1);
        var k := |Split(fen[..n])| - 1;
        assert Split(fen[..n]) == DropLast(Split(p)) + [Last(Split(p)) + [c]];
        assert Split(fen[..n])[k] == Last(Split(p)) + [c];
        assert DropLast(Split(fen[..n])[k]) == Last(Split(p));
        assert SegmentWidth(Split(fen[..n])[k]) == cursor.file + 1;
        var seg := Split(fen)[k];
        assert seg[..|Split(fen[..n])[k]|] == Split(fen[..n])[k];
        SegmentWidthPrefix(seg, |Split(fen[..n])[k]|);
        assert TileExists(PlacementAt(cursor, c).square, width, height);
      }
    }
  }

  /** Upper-case letters (and non-letters) place White pieces, lower-case letters Black ones. */
  lemma LetterColorByCase(c: char)
    ensures 'a' <= c <= 'z' ==> LetterColor(c) == PieceColor.Black
    ensures !('a' <= c <= 'z') ==> LetterColor(c) == PieceColor.White
  {
  }
}
