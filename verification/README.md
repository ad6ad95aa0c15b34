# Chess rules engine — a Dafny model

This project models the rules core of a browser chess game written in TypeScript. It covers three engines that share one set of coordinate and piece tables:

- **The value-style transition engine** (`State.executeMove`, `generateMoves`, `generatePieces`, `canKingBeTaken`). It works on a cloned board grid and returns a new state.
- **The stateful `Game` object.** It holds a list of piece objects, a derived 8×8 board, castling rights, an en-passant square and the cached legal moves. It generates pseudo-legal moves for sliders, pawns, knights and castling. It executes moves by splicing its piece list, marks check, and loads the piece-placement field of Forsyth–Edwards Notation (FEN).
- **The older index-based client engine.** It keeps a flat `Piece[]` indexed by `rank * width + file`, with index-offset direction tables laid out for a board eight squares wide.

Modules:

| module | file | models |
|---|---|---|
| `Wrappers` | wrappers.dfy | `Option` (the source's `null`/`undefined`) |
| `Enums` | enums.dfy | piece types, colours, slide directions, `invertColor` |
| `Utils` | utils.dfy | `Coords` arithmetic, the `Move` record, the four consequence closures as a datatype, castling rights |
| `Pieces` | pieces.dfy | the direction tables, sliding and distance rules, pawn ranks, the FEN letter mapping |
| `Board` | board.dfy | `doesTileExist`, the edge-distance entry, `coordsToIndex` / `indexToCoords` |
| `Fen` | fen.dfy | the board field: `split('/')`, `getSizeOfFEN`, and the cursor and placements of the `loadFEN` loop |
| `State` | state.dfy | `State.class.ts` on values; the per-piece generator is a function parameter |
| `GameMoves` | gamemoves.dfy | the `Game` generators as functions of a read-only view of the game |
| `GameEngine` | gameengine.dfy | `class Game` with its fields, and the specification functions of its state changes |
| `ClientGame` | clientgame.dfy | `class ClientGame` over an `array` board, and the specification functions of its generators |

Each imperative method is proved against a specification function: the method's `ensures` ties its result or new state to that function. The rule lemmas then state what the function's moves satisfy, such as the target square, the capture square, the consequence and the squares crossed. For every generator of both engines an "exact" lemma characterises its output in both directions: a move is generated exactly when it satisfies the stated rule.

### How the game objects are represented

- **Object identity.** `Game` pieces are objects whose identity matters: `indexOf` finds the captured piece, and `coords` is rewritten in place. The model gives every piece object a `handle`, a natural number standing for its identity. The board is a snapshot map from squares to cells naming that handle. The class invariant keeps the handles distinct.
- **JavaScript arithmetic.** `%` on negative numbers is written out as `Board.JsRemainder`. `Math.floor(i / w)` is Dafny's `/` with a positive divisor. The `Scale(delta, -0.5)` of the en-passant consequence is exact halving of an even vector.
- **Distance bounds.** `Infinity` is `Pieces.Unbounded`.

### Quirks of the code, modelled as written

- `precomputeMoveData` of `Game` runs `rank` up to `boardWidth` and `file` up to `boardHeight`. `GameEngine.SquareBoardEdgeTableExact` proves the table exact for square boards.
- `if (targetPieceIndex)` never removes the first piece of the list (`GameEngine.CaptureSkipsFirstPiece`). Removing index `-1` removes the last piece (`GameEngine.CaptureRemovesListedPiece`).
- `generateBoard` always builds an 8×8 grid, and squares outside it appear only where a piece stands (`GameMoves.BoardOfDomain`).
- The client's knight table has no wrap-around check (`ClientGame.KnightJumpWrapsAround`).
- The client's pawn push looks only at the target's type. So it may land on a None-typed square of either colour, which a FEN character that is not a piece letter creates (`ClientGame.SquareMovesSound`).
- The client repeats the letter mappings (`src/client/game.ts:84-120`) and `getSizeOfFEN` (`src/client/game.ts:337-354`) line for line. The model defines each once: `Pieces` holds the mappings and `GameEngine.GetSizeOfFEN` the size loop, and both engines use them.
- Castling does not check for the rook, for check or for attacked squares. No legality filter removes moves that leave the king in check.
- `checkCheck` builds `attackedSquares` with `new Set` over coordinate objects. A `Set` compares objects by reference, and every move's target is an object of its own, so nothing is removed: the list holds one square per opponent move, repeats included (`GameEngine.TargetsMembership`).

## Model

| member | source | states |
|---|---|---|
| Enums.InvertColor | src/game/Game.class.ts:484-486 | the result is never None, and it is Black exactly when the input is White |
| Enums.InvertColorInvolutive | src/client/game.ts:356-358 | for White or Black, inverting twice gives the colour back and inverting once changes it |
| Utils.AddSubtract | src/game/utils.ts:4-23 | `Add` is componentwise; `Subtract` undoes `Add` and `Add` undoes `Subtract`; `Add` commutes |
| Utils.ScaleLaws | src/game/utils.ts:11-16 | scaling by 1 is the identity, by 0 gives the zero vector, and scaling distributes over a sum of factors |
| Utils.EqualIsEquality | src/game/utils.ts:25-30 | `Equal` holds exactly when the squares are equal; it is reflexive and symmetric |
| Utils.ScaleByNegativeHalf | src/game/Game.class.ts:288 | for an even delta, the result scaled by -2 is the delta again |
| Utils.NewMoveDefaults | src/game/utils.ts:40-46 | omitted capture square, sub-move and consequence are null |
| Utils.FirstIndex | src/game/Game.class.ts:237 | `indexOf`: a position holding the element with no earlier occurrence, or -1 exactly when the element is absent |
| Utils.RemoveFirst | src/game/Game.class.ts:237-241 | removing a listed side drops exactly its first occurrence and keeps the others in order (the multiset loses one copy); an absent side leaves the list unchanged |
| Utils.RevokeSide | src/game/Game.class.ts:233-243 | the rook consequence removes the first occurrence of its side from the mover's rights, keeping the rest in order, and keeps the other colour's rights; an absent side or colour None changes nothing |
| Utils.ClearSides | src/game/Game.class.ts:374-378 | the castling consequence empties the mover's rights and keeps the opponent's; for colour None nothing changes |
| Pieces.SlideVectorsAreDistinctUnitSteps | src/game/Piece.class.ts:27-36 | the eight slide vectors are unit steps and pairwise distinct |
| Pieces.KnightDirectionsAreKnightJumps | src/game/Piece.class.ts:38-47 | eight pairwise distinct offsets, each with components of sizes 1 and 2 |
| Pieces.SlidingDirectionsSpec | src/game/Piece.class.ts:53-65 | no repeats; Bishop gives exactly the diagonals, Rook exactly the orthogonals, Queen and King all eight, any other type none |
| Pieces.MoveDistanceRange | src/game/Piece.class.ts:75-98 | min is 1; max is 1 for King and Knight, 2 or 1 for a pawn by start rank, and unbounded exactly for sliders and None |
| Pieces.PawnRanksMirror | src/game/Piece.class.ts:67-73 | White's start and promotion ranks mirror Black's; start and promotion rank coincide only on a board two ranks high |
| Pieces.PieceLetterRoundTrip | src/game/Piece.class.ts:117-153 | letter to type inverts type to letter for every type but None; the mapping ignores case; only the six piece letters give a type |
| Board.EdgeDistanceIsExact | src/game/Game.class.ts:138-151 | from a square on the board, every step count up to the stored edge distance stays on the board and one more leaves it |
| Board.CoordsIndexRoundTrip | src/game/Game.class.ts:440-449 | for a square on the board, `indexToCoords(coordsToIndex(c)) == c`, and the index lies in `0 .. width*height-1` |
| Board.IndexCoordsRoundTrip | src/client/game.ts:325-334 | every array index names a square on the board whose index is that index again |
| Fen.SplitJoin | src/game/Game.class.ts:468 | joining the segments of `split('/')` with `/` gives the field back |
| Fen.SplitSegments | src/game/Game.class.ts:468-481 | the height is the number of `/` plus one, and no segment contains `/` |
| Fen.CursorPosition | src/game/Game.class.ts:74-101 | after any prefix, the cursor is on rank `height-1-(slashes read)`, at the width of the current rank so far |
| Fen.PlacementsOnBoard | src/game/Game.class.ts:67-102 | when every rank has the measured width, every piece `loadFEN` writes lands on a square of the board |
| Fen.PlacementsOnBoardUpTo | src/game/Game.class.ts:76-101 | under a rectangular field, every placement read from a prefix lands on the board |
| Fen.LetterColorByCase | src/game/Game.class.ts:93-97 | lower-case letters give Black pieces; upper-case letters and other characters give White |
| State.Put | src/game/State.class.ts:33-34 | a write keeps the grid's shape and puts the piece on the square |
| State.PutKeepsOthers | src/game/State.class.ts:33-34 | a write leaves every other square as it was |
| State.ApplyConsequence | src/game/State.class.ts:46 | a consequence keeps the side to move, both counters and the grid's shape |
| State.Relocate | src/game/State.class.ts:29-34 | moving the piece keeps the grid's shape |
| State.ExecuteMove | src/game/State.class.ts:9-52 | the method, with its recursion for the sub-move, returns the specification `Execute` |
| State.RelocateMoved | src/game/State.class.ts:16-36 | the capture, half-move and placement steps return the specification `Relocate` |
| State.FinishMove | src/game/State.class.ts:46-51 | the tail of `executeMove` (consequence, side flip, full moves) returns the specification `Finish` |
| State.ExecuteKeepsShape | src/game/State.class.ts:9-52 | a successful move keeps the grid's shape |
| State.SubMoveKeepsSide | src/game/State.class.ts:38-48 | a sub-move never changes the side to move |
| State.TopLevelFlipsSide | src/game/State.class.ts:48 | a top-level move inverts the side to move |
| State.SubMoveFlagOnlyFlips | src/game/State.class.ts:38-48 | the sub-move flag changes nothing except the side flip; success does not depend on it |
| State.FullMovesCount | src/game/State.class.ts:38-49 | full moves grow by exactly the number of Black movers in the chain, each read on the board its call sees; without a sub-move, by one exactly when the moved piece is Black |
| State.FullMovesBounds | src/game/State.class.ts:49 | full moves grow by at least 1 when the moved piece is Black, and by at most the number of chained moves |
| State.ExecuteSucceedsOnGrid | src/game/State.class.ts:12-14 | without a sub-move, the move succeeds exactly when its start and target are on the grid |
| State.SubMoveFailurePropagates | src/game/State.class.ts:38-44 | a failing sub-move makes the whole move fail |
| State.ExecuteMovesPiece | src/game/State.class.ts:29-34 | the start square becomes empty; the target holds the moved piece with new coords, promoted when asked |
| State.ExecuteCaptureRule | src/game/State.class.ts:17-21 | any other square is cleared exactly when it is the capture square and holds an opponent's piece |
| State.RelocateCaptureRule | src/game/State.class.ts:17-34 | the relocation empties another square exactly when it is the capture square holding an opponent's piece |
| State.FinishKeepsOthers | src/game/State.class.ts:46-51 | the closing steps leave every square but the target as it was |
| State.ExecuteHalfMoves | src/game/State.class.ts:17-27 | half moves reset on a capture or a pawn move, and otherwise grow by one |
| State.EnPassantOnlyByConsequence | src/game/State.class.ts:36-46 | an en-passant square after the move was set by one of the chain's consequences |
| State.FinishEnPassant | src/game/State.class.ts:36-46 | after the closing steps, the en-passant square is the previous one or the one the move's consequence sets |
| State.CastlingRightsNeverGrow | src/game/State.class.ts:9-52 | neither side's castling rights grow (as multisets) |
| State.ConsequenceNeverGrantsCastling | src/game/State.class.ts:46 | applying any consequence leaves each colour's castling rights a sub-multiset of what they were |
| State.GenerateMoves | src/game/State.class.ts:54-68 | the rank-major loop returns the specification scan |
| State.GeneratedMoveOrigin | src/game/State.class.ts:57-65 | a move is generated exactly when a square of the board holds a piece of the side to move whose generator yields it |
| State.RowMovesMembership | src/game/State.class.ts:58-64 | a move is in a rank's scan exactly when a scanned square of that rank yields it |
| State.GeneratePieces | src/game/State.class.ts:70-88 | the loop returns the specification scan |
| State.GeneratedPieceOrigin | src/game/State.class.ts:77-85 | a piece is listed exactly when it is not None-typed and stands on a square of the board |
| State.RowPiecesMembership | src/game/State.class.ts:78-84 | a piece is in a rank's scan exactly when it is not None-typed and stands on a scanned square |
| State.AnyTakesKingExists | src/game/State.class.ts:94-104 | the `some` holds exactly when a move's capture square is on the board and holds a King |
| State.CanKingBeTakenIff | src/game/State.class.ts:90-105 | true exactly when a piece of the side to move has a shallow move capturing a King |
| GameMoves.EmptyGrid | src/game/Game.class.ts:121 | the grid has exactly the 64 squares of 8×8, all empty |
| GameMoves.BoardOfDomain | src/game/Game.class.ts:120-130 | the board has the 8×8 squares and, beyond them, exactly the squares where a piece stands |
| GameMoves.BoardOfVacant | src/game/Game.class.ts:121-127 | an 8×8 square where no piece stands is empty |
| GameMoves.BoardOfLastWins | src/game/Game.class.ts:123-127 | a square holds the last listed piece standing on it |
| GameMoves.RayMovesSteps | src/game/Game.class.ts:218-257 | every move of a walk is a slide step: on the board, within the walk's range, onto no own piece, capturing exactly an opponent, with the rook's consequence |
| GameMoves.RayMovesShape | src/game/Game.class.ts:218-257 | move `i` of a walk lands `n+i` steps out, and only the last may capture |
| GameMoves.DirectionsMovesShape | src/game/Game.class.ts:212-263 | every move of the directions' walks is a slide step toward one of the listed directions |
| GameMoves.DirectionsMovesSnoc | src/game/Game.class.ts:212-263 | taking one more direction appends exactly that direction's walk |
| GameMoves.PawnPushesShape | src/game/Game.class.ts:271-297 | every push goes straight ahead within the push range onto an empty board square over empty squares, takes nothing; a double step sets en passant on the square passed over, any other step promotes exactly on an edge rank |
| GameMoves.PawnTakesShape | src/game/Game.class.ts:301-322 | every diagonal move is a take step toward one of the colour's taking directions |
| GameMoves.SlidingMovesRules | src/game/Game.class.ts:208-264 | a slide lands on no own piece, captures exactly an opponent's piece, carries the rook's consequence, and a King moves one step |
| GameMoves.PawnMovesRules | src/game/Game.class.ts:266-323 | a push lands on empty squares over empty squares; a 2-step comes only from the start rank and sets en passant; a diagonal captures an opponent or the square behind the en-passant target |
| GameMoves.KnightMovesRules | src/game/Game.class.ts:325-341 | a jump lands on the board by a knight offset, capturing an opponent's piece or onto an empty square |
| GameMoves.CastlingMovesRules | src/game/Game.class.ts:343-383 | castling goes toward a listed side over two empty squares; the rook moves from file 7 or 0 to beside the king's start; it clears the mover's rights |
| GameMoves.RayMovesReached | src/game/Game.class.ts:218-257 | every move of a walk lands on a step that may be stopped on, every earlier step being on the board and empty, and is that step's move |
| GameMoves.RayMovesComplete | src/game/Game.class.ts:218-257 | every such step within the walk's range gives its move |
| GameMoves.RayMovesExact | src/game/Game.class.ts:218-257 | a walk holds exactly the moves onto the steps in range that are free of own pieces and reached over empty board squares |
| GameMoves.SlidingMovesExact | src/game/Game.class.ts:208-264 | the sliding moves are exactly the moves onto a reachable step toward one of the piece's directions, within that direction's bound |
| GameMoves.PawnPushesReached | src/game/Game.class.ts:271-297 | every push goes `k` squares ahead, within range, over a clear path, with that step's consequence |
| GameMoves.PawnPushesComplete | src/game/Game.class.ts:271-297 | every step in range with a clear path gives its push |
| GameMoves.PawnPushesAborted | src/game/Game.class.ts:271-282 | the push loop reports leaving the board exactly when some step in range is off the board and every step before it clear |
| GameMoves.PawnTakeExact | src/game/Game.class.ts:302-321 | a taking direction gives exactly the capture of an opponent on the diagonal, else the en-passant move onto it taking the square behind, promoting on an edge rank |
| GameMoves.PawnMovesExact | src/game/Game.class.ts:266-323 | a pawn's moves are exactly its clear pushes in range and, unless the push ran off the board, its diagonal moves |
| GameMoves.KnightMovesExact | src/game/Game.class.ts:325-341 | the jumps are exactly those by a listed offset onto an opponent's piece or an empty board square |
| GameMoves.CastlingMovesExact | src/game/Game.class.ts:343-383 | the castling moves are exactly one per listed side whose two squares toward it are on the board and empty |
| GameMoves.AllMovesOrigin | src/game/Game.class.ts:185-206 | a move is generated exactly when some listed piece yields it |
| GameMoves.AllMovesConcat | src/game/Game.class.ts:189-203 | the moves of the list are the concatenation of each piece's moves, in list order |
| GameEngine.IndexOf | src/game/Game.class.ts:172 | the first index holding the handle, or -1 exactly when none does |
| GameEngine.SpliceOne | src/game/Game.class.ts:175 | `splice(i, 1)` (a negative start counts from the end and clamps at 0) removes exactly the element at the start, keeping the others in order, so the length drops by one and the multiset loses that element; a start past the end removes nothing |
| GameEngine.WithEdit | src/game/Game.class.ts:162 | writing coords (or, for the promotion, the type) to a piece object changes only the objects with that handle; length, handles and colours stay in place |
| GameEngine.ExecuteOnPieceCount | src/game/Game.class.ts:157-183 | a move removes at most one piece per chained move and adds none |
| GameEngine.ExecuteOnKeepsHandles | src/game/Game.class.ts:157-183 | every piece object after the move was there before: no new piece object appears |
| GameEngine.PrepareShape | src/game/Game.class.ts:158-177 | the capture step removes at most one piece object, keeps distinct objects distinct, clears en passant and keeps the castling rights |
| GameEngine.ConsequenceKeepsHandles | src/game/Game.class.ts:182 | a consequence keeps the list of piece objects |
| GameEngine.ConsequenceShrinksCastling | src/game/Game.class.ts:182 | a consequence grants no castling side |
| GameEngine.ConcludeEnPassant | src/game/Game.class.ts:178-182 | after the consequence, the en-passant square is the previous one or the one the move's consequence sets |
| GameEngine.ExecuteOnCastlingShrinks | src/game/Game.class.ts:157-183 | no castling right is gained |
| GameEngine.ExecuteOnNeedsOwnPiece | src/game/Game.class.ts:158-160 | a move whose start holds no piece of the side to move changes nothing |
| GameEngine.ExecuteOnPlainMove | src/game/Game.class.ts:157-183 | a plain move keeps the list length and rewrites only the moved piece object (new coords, Queen on the promotion consequence); the en-passant square is the one its consequence sets, else cleared |
| GameEngine.CaptureSkipsFirstPiece | src/game/Game.class.ts:172-176 | a captured piece at index 0 of the list is never removed |
| GameEngine.CaptureRemovesListedPiece | src/game/Game.class.ts:169-177 | a captured opponent at index above 0 is spliced out; an unlisted one removes the last piece |
| GameEngine.ExecuteOnEnPassant | src/game/Game.class.ts:164-182 | an en-passant square after the move is the old one or was set by a consequence of the chain |
| GameEngine.ExecuteOnKeepsDistinct | src/game/Game.class.ts:157-183 | distinct piece objects stay distinct |
| GameEngine.EdgeTableLookup | src/game/Game.class.ts:132-155 | a table entry holds the edge distances of its square for indices inside the swapped bounds, else 0 |
| GameEngine.SquareBoardEdgeTableExact | src/game/Game.class.ts:135-151 | on a square board, every step count up to the looked-up distance stays on the board and one more leaves it |
| GameEngine.TargetsMembership | src/game/Game.class.ts:390 | one attacked square per opponent move; a square is attacked exactly when some opponent move targets it |
| GameEngine.FirstKing | src/game/Game.class.ts:392 | the first King of the colour, or -1 exactly when there is none |
| GameEngine.MarkCheckSpec | src/game/Game.class.ts:392-398 | only the first King's `inCheck` changes, and it holds exactly when an opponent move targets its square |
| GameEngine.BoardIgnoresCheckMarks | src/game/Game.class.ts:120-130 | the derived board does not depend on `inCheck` flags |
| GameEngine.FirstMatch | src/game/Game.class.ts:49-51 | the first move with the requested start and target, or null exactly when none matches |
| GameEngine.FreshEntriesValid | src/game/Game.class.ts:93-97 | the loaded piece objects are distinct and their handles lie in `first .. first+count-1` |
| GameEngine.KeepHandlesUnderCheckMarks | src/game/Game.class.ts:398 | marking check keeps the piece objects and their distinctness |
| GameEngine.GetSizeOfFEN | src/game/Game.class.ts:465-482 | the loop returns the width of the first rank (digit values plus one per other character) and the number of ranks |
| GameEngine.Game.constructor | src/game/Game.class.ts:34-41 | an empty game, White to move, both castling sides for both colours, and the edge table built |
| GameEngine.Game.PrecomputeMoveData | src/game/Game.class.ts:132-155 | the nested loops build the edge table |
| GameEngine.Game.GenerateBoard | src/game/Game.class.ts:120-130 | the board becomes the 8×8 empty grid overlaid with the pieces |
| GameEngine.Game.GenerateMoves | src/game/Game.class.ts:185-206 | the `forEach` returns the moves of every piece of the colour |
| GameEngine.ReadPieces | src/game/Game.class.ts:74-102 | the character loop yields one fresh piece object per placement of the field, in order |
| GameEngine.Game.GeneratePieceMoves | src/game/Game.class.ts:189-202 | one pass appends the moves the piece's type calls for |
| GameEngine.Game.GenerateTypeMoves | src/game/Game.class.ts:192-201 | the `if` chain on the type appends exactly the moves the piece's type calls for |
| GameEngine.Game.GenerateKingMoves | src/game/Game.class.ts:198-200 | a King gets its one-step slides, then its castling moves |
| GameEngine.Game.GenerateSlidingMoves | src/game/Game.class.ts:208-264 | appends the walks toward each of the piece's directions |
| GameEngine.Game.SlideInDirections | src/game/Game.class.ts:212-263 | the `forEach` over directions appends each walk |
| GameEngine.Game.SlideToward | src/game/Game.class.ts:213-258 | one direction's walk, capped by the edge distance, is appended |
| GameEngine.Game.SlideAlong | src/game/Game.class.ts:213-258 | the loop with its `break`s and `return` appends the walk |
| GameEngine.Game.SlideStep | src/game/Game.class.ts:219-257 | one step of the walk: the move it appends, and whether the walk goes on |
| GameEngine.Game.GeneratePawnMoves | src/game/Game.class.ts:266-323 | appends the pushes, then the diagonal moves unless a push left the board |
| GameEngine.Game.PawnPushMoves | src/game/Game.class.ts:271-297 | the push loop appends the pushes and reports whether it left the board |
| GameEngine.Game.PawnPushStep | src/game/Game.class.ts:272-296 | one step of the push: the move it appends, whether the loop goes on, and whether it left the board |
| GameEngine.PawnMovesSplit | src/game/Game.class.ts:266-323 | a pawn's moves are its pushes up to its distance range, then its diagonals unless a push left the board |
| GameEngine.Game.PawnTakeMoves | src/game/Game.class.ts:299-322 | appends the diagonal captures and en-passant captures |
| GameEngine.Game.PawnTakeToward | src/game/Game.class.ts:302-321 | one taking direction's capture or en-passant move, if any |
| GameEngine.Game.GenerateKnightMoves | src/game/Game.class.ts:325-341 | appends the knight jumps |
| GameEngine.Game.KnightJumps | src/game/Game.class.ts:326-340 | the `forEach` over the knight offsets appends each jump |
| GameEngine.Game.KnightJump | src/game/Game.class.ts:327-339 | one offset's jump, onto an opponent or an empty square of the board |
| GameEngine.Game.GenerateCastlingMoves | src/game/Game.class.ts:343-383 | appends the castling moves of the listed sides |
| GameEngine.Game.CastleToward | src/game/Game.class.ts:347-381 | one listed side's castling move, if the two squares toward it are on the board and empty |
| GameEngine.Game.CheckCheck | src/game/Game.class.ts:389-418 | the attacked squares are the opponent targets, one per move, and the check mark is set |
| GameEngine.Game.Regen | src/game/Game.class.ts:112-118 | board, opponent moves, attacked squares, check mark and legal moves are all regenerated from the pieces |
| GameEngine.Game.RunConsequence | src/game/Game.class.ts:182 | the consequence closure updates castling, en passant or the moved piece's type as specified |
| GameEngine.Game.ExecuteMove | src/game/Game.class.ts:157-183 | the recursive method leaves the pieces, castling rights and en-passant square as the specification says |
| GameEngine.Game.TryMovePiece | src/game/Game.class.ts:46-65 | moves exactly when a legal move matches; then executes it, flips the side and regenerates; otherwise nothing changes |
| GameEngine.Game.LoadFEN | src/game/Game.class.ts:67-105 | on a size mismatch nothing changes; otherwise the pieces become the field's placements as fresh objects and everything is regenerated |
| ClientGame.EqualsIsEquality | src/client/game.ts:28-30 | `equals` holds exactly when the moves are equal; it is reflexive and symmetric |
| ClientGame.SlideOffsetsFlattenWidthEight | src/client/game.ts:46-55 | each slide offset is its unit step's index on a board 8 wide |
| ClientGame.KnightOffsetsFlattenWidthEight | src/client/game.ts:56-65 | the knight offsets are exactly the knight jumps flattened on a board 8 wide |
| ClientGame.EdgeMapLookup | src/client/game.ts:203-227 | every array index has an entry holding the edge distances of its square |
| ClientGame.FlatWalkMatchesSquares | src/client/game.ts:252-253 | on a board 8 wide, `k` offsets from an index, for `k` up to the edge distance, is the index of the square `k` steps away, which is on the board |
| ClientGame.SlideRayExact | src/client/game.ts:252-268 | the walk holds exactly the steps up to the edge that land on no own piece and pass only squares empty of both sides |
| ClientGame.DirectionsWalksExact | src/client/game.ts:248-270 | the sliding moves are the union of the walks toward each direction |
| ClientGame.PawnWalkExact | src/client/game.ts:279-295 | the push holds exactly the steps onto None-typed squares over None-typed, non-opponent squares |
| ClientGame.PawnTakesExact | src/client/game.ts:297-309 | the takes are exactly the diagonal steps onto an opponent's piece |
| ClientGame.KnightJumpsExact | src/client/game.ts:312-323 | the jumps are exactly the knight offsets onto an array square without a piece of the mover |
| ClientGame.KnightJumpWrapsAround | src/client/game.ts:312-323 | a knight on file 7 may jump to file 1 of a higher rank |
| ClientGame.SquareMovesSound | src/client/game.ts:234-244 | a square's moves start on a piece of the mover and end on another array square holding none of its pieces, or typed None |
| ClientGame.MovesBelowExact | src/client/game.ts:233-245 | the loop's moves are exactly those of the squares scanned so far |
| ClientGame.SquareMovesStart | src/client/game.ts:234-244 | every move generated from a square starts on that square |
| ClientGame.AllIndexMovesSound | src/client/game.ts:229-246 | a move is generated exactly when its start square's generator yields it; each is sound as above |
| ClientGame.NoPiecesNoMoves | src/client/game.ts:141-147 | a board without pieces of the mover gives no moves |
| ClientGame.PlaceAllUnwritten | src/client/game.ts:159-179 | a square no placement writes keeps what it held |
| ClientGame.PlaceAllLastWins | src/client/game.ts:159-179 | a square holds the piece of the last placement written to it |
| ClientGame.ClientGame.constructor | src/client/game.ts:135-148 | an empty board of `width*height` squares, White to move, no moves, and the edge table built |
| ClientGame.ClientGame.PrecomputeMoveData | src/client/game.ts:203-227 | the file-by-file loops build the table of every index |
| ClientGame.ClientGame.GenerateMoves | src/client/game.ts:229-246 | clears the list and appends the moves of every square in index order |
| ClientGame.ClientGame.GenerateSquareMoves | src/client/game.ts:234-244 | one pass appends the generator the piece's type calls for |
| ClientGame.ClientGame.GenerateSlidingMoves | src/client/game.ts:248-270 | appends the walks toward each direction |
| ClientGame.ClientGame.SlideInDirections | src/client/game.ts:251-269 | the `forEach` over directions appends each walk |
| ClientGame.ClientGame.SlideToward | src/client/game.ts:252-268 | the loop with its two `break`s appends the walk |
| ClientGame.ClientGame.RayStep | src/client/game.ts:253-267 | one step of the walk: the move it appends, and whether the walk goes on |
| ClientGame.ClientGame.GeneratePawnMoves | src/client/game.ts:272-310 | appends the push (1 or 2 from the start rank, capped by the edge), then the takes |
| ClientGame.ClientGame.PawnPush | src/client/game.ts:279-295 | the push loop appends the push walk |
| ClientGame.ClientGame.PushStep | src/client/game.ts:280-294 | one step of the push: the move it appends, and whether the push goes on |
| ClientGame.ClientGame.PawnTakes | src/client/game.ts:297-309 | the `forEach` appends the takes |
| ClientGame.ClientGame.GenerateKnightMoves | src/client/game.ts:312-323 | the `forEach` appends the jumps |
| ClientGame.ClientGame.TryMovePiece | src/client/game.ts:184-201 | an accepted request moves the piece onto an opponent or None-typed target, empties the start, flips the side and regenerates; any other request changes nothing |
| ClientGame.ClientGame.LoadFEN | src/client/game.ts:150-182 | on a size mismatch nothing changes; otherwise a fresh board receives the field's placements, last write winning, and moves are regenerated |

## Left out

- I/O and libraries: `console.log`, `uuidv4` identifiers, Vue `reactive` wrappers and `clone` have no counterpart. `clone` is value copying.
- `kingAttacks` and `crossedSquares` are not modelled; they are diagnostic bookkeeping nothing reads. `isSquareAttacked` and `doesMovePreventCheck` are not modelled because nothing calls them. `boardLayout` is stored but never read, so it is left out.
- `Piece.generateMoves` is an empty stub whose signature does not match its use in `State.generateMoves`. The per-piece generator of `State` is therefore a function parameter (`State.PieceGenerator`). `Game.doesTileExist(boardSetup, …)` of `State.canKingBeTaken` is modelled by `Board.TileExists`.
- `ToUpper` and `ToLower` map only ASCII letters. Other Unicode case mappings are not modelled.
- Board width and height are natural numbers. Fractional or negative sizes are not modelled.
- State.ExecuteMove: a start square past the end of its rank gives `Null`, as in the source. A start or target square on a missing rank also gives `Null`, where the source throws. A target square past the end of an existing rank gives `Null`, where the source writes past the row and succeeds. A capture square on a missing rank is skipped, where the source throws.
- State.GenerateMoves: requires the grid to cover the declared width and height (`State.Fits`). On a smaller grid the source throws reading a missing rank or square (State.class.ts:59-60); the model does not cover that case.
- State.GeneratePieces: requires `State.Fits` for the same reason; the source throws on a smaller grid (State.class.ts:79-80).
- State.CanKingBeTakenIff: requires `State.Fits`, since the source's `generateMoves` call throws on a smaller grid.
- GameEngine.Game.ExecuteMove: a missing board row or square reads as empty, where the source throws. A capture square outside the grid is skipped.
- GameEngine.Game.GenerateMoves: an edge-table entry outside the swapped bounds reads as 0, where the source throws. On a field wider or higher than 8 squares, `generateBoard` leaves holes: a square outside the 8×8 grid that no piece occupies reads as empty in the model (`GameMoves.CellAt`), where the source reads `undefined` and throws on its `color` (Game.class.ts:120-130, 224-227). The model then generates moves onto or across such squares that the source never returns.
- GameEngine.Game.TryMovePiece: the opening `startSquare == targetSquare` test compares object references, which values cannot express. It is omitted, so the legal-move lookup decides alone.
- GameEngine.Game.LoadFEN: `this.pieces.length = 0` truncates the list in place. The model replaces the list, since no other holder of that array exists in the core.
- ClientGame.ClientGame.LoadFEN: a write outside the array is dropped, where JavaScript would grow the array or set a stray property. Under a rectangular field no such write happens (`Fen.PlacementsOnBoard`).
- ClientGame.ClientGame.TryMovePiece: it requires the start index to be inside the array when start and target differ, because the source throws there reading `color` of `undefined`.
- ClientGame.ClientGame.GeneratePawnMoves: on a board zero squares wide the start rank is taken as 0, where JavaScript would divide by zero. Such a board has no squares to generate from.
- The client board's initial `fill(new Piece())` shares one object across all squares. The client never mutates a piece in place, so the model stores values.
