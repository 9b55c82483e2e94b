# uvschess StudentAI and ChessState, modelled in Dafny

This project models two files of the uvschess chess framework.

The first is the student player `uvschess/StudentAI/StudentAI.cs`:
- `IsValidMove` decides whether a move is legal: the moving side's own piece, not onto its own piece, by that piece's movement rule, and not leaving its own king in check.
- `IsInCheck` tests whether a king is attacked. It tests knights found by a row-major scan, then walks eight rays out from the king.
- `IsCheckmate` tests whether a side has no legal move.
- `GetNextMove` picks a move in one ply. It enumerates every from/to pair in order. It returns the first mating move at once. Otherwise it keeps the first move of strictly greatest score; with no legal move it returns the stalemate sentinel.
- `PieceColor` gives the colour of a piece.

The second is the game-state record `Framework/ChessState.cs`. It covers the constructors (a null or empty FEN text falls back to the start position), `FromFenBoard`, `ToFenBoard`, `MakeMove` and `Clone`.

Modules:
- `ChessTypes` (`chess_types.dfy`): pieces, colours, locations, moves and the board. A `ChessBoard` is modelled as an 8x8 sequence value `Board`, indexed `[x][y]`. The `ChessPiece[,]` arrays the source passes around are `array2<Piece>`.
- `ChessRules` (`chess_rules.dfy`): the rules the source applies, as functions and predicates on board values. These include `Legal`, `InCheck`, `Checkmated`, the promotion board `Next`, the scan order, and `NextMove`, the move the picker returns.
- `MovePicker` (`move_picker.dfy`): the picker of `GetNextMove`, apart from chess. It is a fold over a sequence of outcomes, with its meaning proved.
- `StudentAI` (`student_ai.dfy`): the source's methods as imperative Dafny with loops. Each is proved equal to its `ChessRules` specification.
- `ChessFacts` (`chess_facts.dfy`): consequences of the rules. These cover what a legal move implies, promotion, checkmate versus stalemate, and positions that are always check.
- `FenFormat` (`fen_format.dfy`): `String.Split(' ')`, decimal printing and parsing of a 32-bit `int`, and the FEN fields after the board field.
- `GameState` (`chess_state.dfy`): `ChessState` as a class whose fields the methods update.

Inputs the source takes from its host:
- `EvaluateBoard` is the parameter `eval: Board -> int`.
- `IsMyTurnOver()` is the boolean `turnOver`.
- `ChessBoard.MakeMove` is the parameter `apply`.

Facts about the source that shape the model:
- `GetNextMove` scores each move with one call of `EvaluateBoard` on the board after it.
- `EvaluateBoard` returns `random.Next()`.
- Without a king of the colour asked about, `IsInCheck` throws an index-out-of-range exception. The exception: when the first or last opponent knight stands on (1,0) or (0,1), the knight test passes against KingX = KingY = -1, and it answers true.
- `IsInCheck` tests the first and the last opponent knight found by its scan. A knight between them is not tested.

## Model

| member | source | states |
|---|---|---|
| ChessRules.PieceColor | uvschess/StudentAI/StudentAI.cs:280-293 | Black for each black piece; White for each white piece and for the empty square |
| StudentAI.IsValidMove | uvschess/StudentAI/StudentAI.cs:117-277 | the answer is exactly `Legal`: own piece on from, no own piece on to, the movement rule holds, and the own king is not in check after the move |
| StudentAI.MovesLikePiece | uvschess/StudentAI/StudentAI.cs:128-270 | the answer is exactly the per-piece rule `ShapeOk`: pawn advances and captures, rook/bishop/queen lines with the squares between clear, knight jumps, king steps |
| StudentAI.ClearColumn | uvschess/StudentAI/StudentAI.cs:164-170 | the vertical walk answers true exactly when every square strictly between from and to is empty |
| StudentAI.ClearRow | uvschess/StudentAI/StudentAI.cs:176-182 | the horizontal walk answers true exactly when every square strictly between from and to is empty |
| StudentAI.ClearDiagonal | uvschess/StudentAI/StudentAI.cs:199-211 | the diagonal walk answers true exactly when every square strictly between from and to is empty |
| StudentAI.RawAfter | uvschess/StudentAI/StudentAI.cs:272-274 | a fresh 8x8 copy holding the board with the moving piece on to and from emptied |
| ChessRules.After | uvschess/StudentAI/StudentAI.cs:272-274 | the piece of from stands on to, from is empty, every other square is unchanged |
| ChessRules.KingSurvivesMove | uvschess/StudentAI/StudentAI.cs:271-276 | moving one's own piece onto a square without one's own piece leaves one's king on the board, so the check test after the move is defined |
| ChessFacts.LegalBasics | uvschess/StudentAI/StudentAI.cs:119-126 | a legal move starts on one's own piece, does not land on one's own piece, never has from equal to to, and leaves one's king present and not in check |
| StudentAI.ScanPieces | uvschess/StudentAI/StudentAI.cs:304-334 | after the row-major scan, KingX/KingY hold the last own king, slot 1 the first opponent knight, slot 2 the last opponent knight when it is not the first, and -1 where nothing was found |
| ChessRules.FirstFoundIsFirst | uvschess/StudentAI/StudentAI.cs:322-326 | the first square found holding a piece holds it, and no square scanned before it does |
| ChessRules.LastFoundIsLast | uvschess/StudentAI/StudentAI.cs:315-319 | the last square found holding a piece holds it, and no square scanned after it does |
| ChessRules.FoundTogether | uvschess/StudentAI/StudentAI.cs:320-332 | the first-found and last-found slots are filled together, and each holds a scanned square |
| ChessRules.KingSquare | uvschess/StudentAI/StudentAI.cs:315-318 | the king square the scan leaves is on the board, holds the own king, and no later square does |
| StudentAI.ScanRay | uvschess/StudentAI/StudentAI.cs:353-437 | a ray walk answers true exactly when the first occupied square on the ray is a threat at its distance: opponent king or pawn next to the king, rook or bishop on its kind of line, or queen |
| StudentAI.IsInCheck | uvschess/StudentAI/StudentAI.cs:296-440 | the answer is exactly `InCheck`: one of the two remembered knights is a jump from the king, or one of the eight rays is hit |
| ChessFacts.ThreatNextToKing | uvschess/StudentAI/StudentAI.cs:357-431 | a threat on the square next to the king in any of the eight directions means check, whatever else is on the board |
| ChessFacts.AdjacentKingChecks | uvschess/StudentAI/StudentAI.cs:357-430 | the opponent king on any square next to the king means check |
| ChessFacts.PawnChecks | uvschess/StudentAI/StudentAI.cs:398-431 | a white pawn diagonally on row y + 1 of a black king, or a black pawn diagonally on row y - 1 of a white king, means check |
| StudentAI.IsCheckmate | uvschess/StudentAI/StudentAI.cs:444-471 | the answer is exactly `Checkmated`: no pair of squares is a legal move of that colour |
| StudentAI.HasMoveFrom | uvschess/StudentAI/StudentAI.cs:453-466 | true exactly when some target square is a legal move from that square |
| StudentAI.NoneAtAll | uvschess/StudentAI/StudentAI.cs:446-470 | having scanned every pair without a legal one means no legal move exists |
| ChessFacts.CheckmatedMeansNoMove | uvschess/StudentAI/StudentAI.cs:442-471 | IsCheckmate's predicate holds exactly when there is no legal move, so it also holds in stalemate |
| StudentAI.GetNextMove | uvschess/StudentAI/StudentAI.cs:33-108 | null exactly when the turn is already over; otherwise the move `NextMove` |
| StudentAI.NextMoveSpec | uvschess/StudentAI/StudentAI.cs:38-107 | with a mate available, the result is the first mating move in enumeration order, flagged Checkmate; else with a legal move, a legal move of greatest score that no earlier legal move equals; else the stalemate sentinel |
| ChessRules.NextMoveMates | uvschess/StudentAI/StudentAI.cs:70-81 | with some mating move, `NextMove` is the first mating move, flagged Checkmate |
| ChessRules.NextMoveBest | uvschess/StudentAI/StudentAI.cs:83-87 | with no mate but a legal move, `NextMove` is a legal move whose score no legal move exceeds and no earlier one equals, flagged Check exactly when it gives check |
| ChessRules.NextMoveStalemate | uvschess/StudentAI/StudentAI.cs:94-98 | with no legal move, `NextMove` is the sentinel with no from, no to and flag Stalemate |
| ChessRules.FirstMatingMove | uvschess/StudentAI/StudentAI.cs:73-80 | the first mating outcome of the enumeration is a mating move with no mating move before it |
| ChessRules.BestScoredMove | uvschess/StudentAI/StudentAI.cs:84-87 | the first best-scored outcome is a legal move of greatest score with every earlier legal move scoring less |
| ChessRules.TryMeaning | uvschess/StudentAI/StudentAI.cs:55-83 | the outcome of trying a pair is Illegal exactly when it is not legal, Mating exactly when it mates, and otherwise carries the move's score and Check flag |
| ChessRules.MoveOfIndex | uvschess/StudentAI/StudentAI.cs:41-50 | every pair has one of the 4096 enumeration positions, and the position gives the pair back |
| ChessRules.IndexOfMove | uvschess/StudentAI/StudentAI.cs:41-50 | each of the 4096 positions names an on-board pair, and that pair's position is the same |
| ChessRules.PrecedesIndex | uvschess/StudentAI/StudentAI.cs:41-50 | one pair comes before another in the fromY, fromX, toY, toX order exactly when its position is smaller |
| StudentAI.MovesFrom | uvschess/StudentAI/StudentAI.cs:48-90 | after the targets of one square, either a mating move that is the picker's final answer, or the picker's state after those 64 pairs |
| StudentAI.TryMove | uvschess/StudentAI/StudentAI.cs:52-83 | whether the pair is legal and mates, and the move recorded for it, are exactly the outcome of that pair |
| StudentAI.SkipSquare | uvschess/StudentAI/StudentAI.cs:45 | the 64 pairs from a square without one's own piece are all illegal and leave the picker unchanged |
| StudentAI.RawNext | uvschess/StudentAI/StudentAI.cs:58-69 | a fresh copy holding the board after the move, with a promoting pawn replaced by a queen |
| ChessFacts.NextPromotes | uvschess/StudentAI/StudentAI.cs:62-69 | the scored board differs from the board after the move only on to, where a black pawn on row 7 or a white pawn on row 0 becomes a queen of its colour |
| MovePicker.PickMatedSpec | uvschess/StudentAI/StudentAI.cs:70-81 | the picker has stopped on a mate exactly when some tried move mates, and the move it holds is the first mating one |
| MovePicker.PickNoneSpec | uvschess/StudentAI/StudentAI.cs:95-98 | the picker holds no move exactly when every tried move was illegal |
| MovePicker.PickBestSpec | uvschess/StudentAI/StudentAI.cs:84-87 | without a mate, the move held scores at least as much as every scored move tried and strictly more than every earlier one |
| MovePicker.MatedStays | uvschess/StudentAI/StudentAI.cs:80 | once a mate is found, trying further moves changes nothing |
| MovePicker.IllegalRun | uvschess/StudentAI/StudentAI.cs:55 | a run of illegal moves leaves the picker's state unchanged |
| MovePicker.ChosenSpec | uvschess/StudentAI/StudentAI.cs:94-107 | the returned move is the first mating one; else, with a scored move, the first best-scoring one; else, with every move illegal, the stalemate sentinel |
| GameState.StartStateFields | Framework/ChessState.cs:36 | the start text reads without error: the standard board field, White to move, halfmove clock 0 and fullmove number 1 |
| GameState.ChessState.constructor | Framework/ChessState.cs:46-50 | the new state has the start board, White to move, counters 0 and 1, and no previous board or move |
| GameState.ChessState.Blank | Framework/ChessState.cs:37-42 | the field values before a constructor body runs: no boards, no move, both counters 0 |
| GameState.ChessState.Create | Framework/ChessState.cs:56-63 | a state exists exactly when the text (the start text in place of a null or empty one) reads without error; it then holds that text's board, colour and counters, and no previous board or move; for a null or empty text it is the start board, White to move, counters 0 and 1 |
| GameState.ChessState.FromFenBoard | Framework/ChessState.cs:197-219 | succeeds exactly when field 1 is "w" or "b" and fields 4 and 5 are ints. The board is always set from field 0. Colour and counters are set in order as far as reading goes before the error; nothing else changes |
| GameState.ChessState.ToFenBoard | Framework/ChessState.cs:172-190 | the text is the board field, the colour letter, two "-" placeholders, the halfmove clock and the fullmove number, separated by single spaces |
| GameState.ChessState.MakeMove | Framework/ChessState.cs:120-134 | the previous move is the move, the previous board is the board before, the board is the board with the move applied, the other side is to move, and the counters are unchanged |
| GameState.ChessState.Clone | Framework/ChessState.cs:143-165 | a fresh state with the same board, previous board, previous move and side to move, whose counters are 0 and 1 as in the start text rather than copied |
| FenFormat.FenRoundTrip | Framework/ChessState.cs:172-216 | reading what ToFenBoard writes succeeds and gives back the board field, the colour and both counters, when the board field has no space |
| FenFormat.ParseIntText | Framework/ChessState.cs:187 | parsing the decimal text of any 32-bit int gives that int back |
| FenFormat.NatTextValue | Framework/ChessState.cs:187 | the digits printed for a natural number have that number as their value |
| FenFormat.NoSpaceInInt | Framework/ChessState.cs:187 | the printed counter has no space, so it stays one field |
| FenFormat.JoinSix | Framework/ChessState.cs:174-187 | six fields joined are the fields with a separator between neighbours and nowhere else |
| FenFormat.Split | Framework/ChessState.cs:199 | splitting always gives at least one field, so field 0 always exists |
| FenFormat.SplitFieldsFree | Framework/ChessState.cs:199 | no field of a split contains the separator |
| FenFormat.JoinSplit | Framework/ChessState.cs:199 | joining the fields of a split with the separator gives the original text back |
| FenFormat.SplitJoin | Framework/ChessState.cs:199 | splitting separator-free fields joined by the separator gives the same fields back |

## Left out

- Logging and profiling are not modelled (`Log`, `Profiler.SetDepthReachedDuringThisTurn`, `SetDecisionTree`). They only report to the host.
- `IsMyTurnOver` is read once, as the input `turnOver`. The source's loop runs its body at most once, since the body ends in `break`, so one read is all the source makes.
- `EvaluateBoard` returns a random number. It is the parameter `eval`, and the proofs hold for every evaluator.
- The internals of `ChessBoard` are not part of this model: its indexer, `RawBoard`, `Clone`, `MakeMove`, and FEN board-field parsing. `RawBoard` is an independent 8x8 copy of the board value. In `ChessState`, the board is a token holding its FEN board field. `ChessBoard.MakeMove` is the parameter `apply`.
- GameState.ChessState.FromFenBoard: errors from `new ChessBoard(lines[0])` on a malformed board field are not modelled, because that parser is not part of this model.
- FenFormat.ParseInt32: accepts an optional sign and decimal digits within the range of an `int`. It does not model the leading and trailing white space, or the culture-dependent signs, that `Convert.ToInt32` also accepts.
- GameState.ChessState.Clone: the copied boards and move are values, so the deep copies of `ChessBoard.Clone` and `ChessMove.Clone` are plain sharing here. The model does not capture aliasing between the original and the copy.
- GameState.ChessState.MakeMove: requires a current board. With a null board, the source throws a NullReferenceException on `CurrentBoard.Clone()`.
- GameState.ChessState.ToFenBoard: requires a current board. With a null board, the source throws on `CurrentBoard.ToFenBoard()`.
- GameState.ChessState.Blank: sets the colour to White. C#'s default value of `ChessColor` is not known here, and `FromFenBoard` sets the colour before any read of it could succeed.
- The CurrentBoard, PreviousBoard, PreviousMove, CurrentPlayerColor, HalfMoves and FullMoves property setters are plain field assignments. They are folded into the methods that call them.
- StudentAI.IsInCheck: requires the king of the colour to be on the board. Without one, the source throws an index-out-of-range exception. The exception is when the first or last opponent knight stands on (1,0) or (0,1): the source then answers true. Neither kingless behaviour is modelled.
- StudentAI.IsValidMove: requires a king of the moving colour, because its final step calls IsInCheck. It also requires both locations on the board, as every move the framework enumerates is.
- StudentAI.GetNextMove: requires a king of `myColor`, because each IsValidMove call needs one. It also requires that every legal move leaves the opponent's king on the board, because the IsInCheck call on the opponent needs one. Without a king, the source throws, except in the knight case described at StudentAI.IsInCheck.
- StudentAI.IsCheckmate: requires a king of the colour, because each IsValidMove it makes needs one.
- ChessRules.ChessTry: the mating move has score 0, and StalemateMove has score 0. Neither `ChessMove`'s constructor nor its default `ValueOfMove` is part of this model; 0 is assumed.
- Minimax search, a material evaluator, castling, en passant and a choice of promotion piece are not part of the source, so they are not modelled.
- `Framework/Gui/Preferences.cs` is not part of this model: it is a WinForms preferences dialog backed by an ini file.
