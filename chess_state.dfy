/** The game-state record of Framework/ChessState.cs: the board (kept as an opaque token
    built from, and printed as, the board field of a FEN string), the board and move before
    the last move, the side to move, and the two move counters. */
module GameState {
  import opened ChessTypes
  import opened FenFormat

  /** The FEN text of the initial position. */
  const StartState: string := "rnbqkbnr/pppppppp/8/8/8/8/PPPPPPPP/RNBQKBNR w KQkq - 0 1"

  /** The board field of StartState. */
  const StartBoard: string := "rnbqkbnr/pppppppp/8/8/8/8/PPPPPPPP/RNBQKBNR"

  /** A ChessBoard, of which only its FEN board field is modelled. */
  datatype BoardToken = BoardToken(fen: string)

  /** What reading StartState yields. */
  lemma StartStateFields()
    ensures FenOk(StartState)
    ensures BoardField(StartState) == StartBoard
    ensures ColorField(StartState) == Some(White)
    ensures CounterField(StartState, 4) == Some(0) && CounterField(StartState, 5) == Some(1)
  {
    var fields := [StartBoard, "w", "KQkq", "-", "0", "1"];
    StartStateText();
    JoinSix(StartBoard, "w", "KQkq", "-", "0", "1", ' ');
    StartBoardNoSpace();
    SplitJoin(fields, ' ');
    SmallCounters();
  }

  lemma StartStateText()
    ensures StartState == StartBoard + [' '] + ("w" + [' '] + ("KQkq" + [' '] + ("-" + [' '] + ("0" + [' '] + "1"))))
  {
  }

  lemma StartBoardNoSpace()
    ensures ' ' !in StartBoard
  {
  }

  lemma SmallCounters()
    ensures ParseInt32("0") == Some(0) && ParseInt32("1") == Some(1)
  {
  }

  /** The text a state is built from: null and the empty string stand for StartState. */
  function EffectiveFen(fenBoard: Option<string>): string {
    if fenBoard.None? || fenBoard.value == "" then StartState else fenBoard.value
  }

  class ChessState {
    var currentBoard: Option<BoardToken>
    var previousBoard: Option<BoardToken>
    var previousMove: Option<Move>
    var currentPlayerColor: Color
    var fullMoves: Int32
    var halfMoves: Int32

    /** ChessState() (ChessState.cs:46-50): the state read from StartState. */
    constructor ()
      ensures currentBoard == Some(BoardToken(StartBoard)) && currentPlayerColor == White
      ensures halfMoves == 0 && fullMoves == 1
      ensures previousBoard.None? && previousMove.None?
    {
      currentBoard := None;
      previousBoard := None;
      previousMove := None;
      currentPlayerColor := White;
      fullMoves := 0;
      halfMoves := 0;
      new;
      StartStateFields();
      var ok := FromFenBoard(StartState);
    }

    /** The fields as a new object has them before its constructor body runs: every
        reference null and both counters 0 (the colour is overwritten before it is read). */
    constructor Blank()
      ensures currentBoard.None? && previousBoard.None? && previousMove.None?
      ensures halfMoves == 0 && fullMoves == 0
    {
      currentBoard := None;
      previousBoard := None;
      previousMove := None;
      currentPlayerColor := White;
      fullMoves := 0;
      halfMoves := 0;
    }

    /** ChessState(fenBoard) (ChessState.cs:56-63): a null or empty text is replaced by
        StartState, which is then read; None stands for the exception FromFenBoard throws. */
    static method Create(fenBoard: Option<string>) returns (r: Option<ChessState>)
      ensures r.Some? <==> FenOk(EffectiveFen(fenBoard))
      ensures r.Some? ==> fresh(r.value)
      ensures r.Some? ==> r.value.currentBoard == Some(BoardToken(BoardField(EffectiveFen(fenBoard))))
      ensures r.Some? ==> Some(r.value.currentPlayerColor) == ColorField(EffectiveFen(fenBoard))
      ensures r.Some? ==> Some(r.value.halfMoves) == CounterField(EffectiveFen(fenBoard), 4)
      ensures r.Some? ==> Some(r.value.fullMoves) == CounterField(EffectiveFen(fenBoard), 5)
      ensures r.Some? ==> r.value.previousBoard.None? && r.value.previousMove.None?
      ensures fenBoard.None? || fenBoard == Some("") ==>
        r.Some? && r.value.currentBoard == Some(BoardToken(StartBoard)) && r.value.currentPlayerColor == White &&
        r.value.halfMoves == 0 && r.value.fullMoves == 1
    {
      StartStateFields();
      var fen := if fenBoard.None? then "" else fenBoard.value;
      if fenBoard.None? || fen == "" {
        fen := StartState;
      }
      var s := new ChessState.Blank();
      var ok := s.FromFenBoard(fen);
      if ok {
        r := Some(s);
      } else {
        r := None;
      }
    }

    /** FromFenBoard (ChessState.cs:197-219): splits the text at spaces and sets the board
        from field 0, the colour from field 1 ("w" or "b"), then the halfmove clock and the
        fullmove number from fields 4 and 5.  It stops (ok false: the source throws) at the
        first field that is missing or malformed, keeping what it set before. */
    method FromFenBoard(fenBoard: string) returns (ok: bool)
      modifies this
      ensures ok <==> FenOk(fenBoard)
      ensures currentBoard == Some(BoardToken(BoardField(fenBoard)))
      ensures currentPlayerColor == if ColorField(fenBoard).Some? then ColorField(fenBoard).value
                                    else old(currentPlayerColor)
      ensures halfMoves == if ColorField(fenBoard).Some? && CounterField(fenBoard, 4).Some?
                           then CounterField(fenBoard, 4).value else old(halfMoves)
      ensures fullMoves == if FenOk(fenBoard) then CounterField(fenBoard, 5).value else old(fullMoves)
      ensures previousBoard == old(previousBoard) && previousMove == old(previousMove)
    {
      var lines := Split(fenBoard, ' ');
      currentBoard := Some(BoardToken(lines[0]));
      if |lines| < 2 {
        return false;
      }
      if lines[1] == "w" {
        currentPlayerColor := White;
      } else if lines[1] == "b" {
        currentPlayerColor := Black;
      } else {
        return false;
      }
      if |lines| < 5 {
        return false;
      }
      var half := ParseInt32(lines[4]);
      if half.None? {
        return false;
      }
      halfMoves := half.value;
      if |lines| < 6 {
        return false;
      }
      var full := ParseInt32(lines[5]);
      if full.None? {
        return false;
      }
      fullMoves := full.value;
      return true;
    }

    /** ToFenBoard (ChessState.cs:172-190): the board field, then " w" or " b", then the
        castling and en passant placeholders and the two counters. */
    method ToFenBoard() returns (r: string)
      requires currentBoard.Some?
      ensures r == FenText(currentBoard.value.fen, currentPlayerColor, halfMoves, fullMoves)
    {
      var board := currentBoard.value.fen;
      r := board;
      if currentPlayerColor == White {
        r := r + " w";
      } else {
        r := r + " b";
      }
      var half := IntText(halfMoves);
      var full := IntText(fullMoves);
      r := r + (" - - " + half + " " + full);
      assert r == board + [' '] + (ColorLetter(currentPlayerColor) + [' '] + ("-" + [' '] + ("-" + [' '] + (half + [' '] + full))));
      JoinSix(board, ColorLetter(currentPlayerColor), "-", "-", half, full, ' ');
    }

    /** MakeMove (ChessState.cs:120-134): records the move and a copy of the board before
        it, makes the move on the board (`apply` stands for ChessBoard.MakeMove) and hands
        the turn to the other side. */
    method MakeMove(move: Move, apply: (BoardToken, Move) -> BoardToken)
      requires currentBoard.Some?
      modifies this
      ensures previousMove == Some(move)
      ensures previousBoard == old(currentBoard)
      ensures currentBoard == Some(apply(old(currentBoard.value), move))
      ensures currentPlayerColor == Opp(old(currentPlayerColor))
      ensures halfMoves == old(halfMoves) && fullMoves == old(fullMoves)
    {
      previousMove := Some(move);
      previousBoard := currentBoard;
      currentBoard := Some(apply(currentBoard.value, move));
      if currentPlayerColor == White {
        currentPlayerColor := Black;
      } else {
        currentPlayerColor := White;
      }
    }

    /** Clone (ChessState.cs:143-165): a new state, built from StartState, that takes over
        the board, the previous board and move and the side to move; its counters stay
        those of StartState. */
    method Clone() returns (r: ChessState)
      ensures fresh(r)
      ensures r.currentBoard == currentBoard && r.previousBoard == previousBoard
      ensures r.previousMove == previousMove && r.currentPlayerColor == currentPlayerColor
      ensures r.halfMoves == 0 && r.fullMoves == 1
    {
      r := new ChessState();
      r.currentBoard := currentBoard;
      r.previousBoard := previousBoard;
      r.previousMove := previousMove;
      r.currentPlayerColor := currentPlayerColor;
    }
  }
}
