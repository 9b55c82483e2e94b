/** The move logic of uvschess/StudentAI/StudentAI.cs: legality (IsValidMove), check
    detection (IsInCheck), checkmate detection (IsCheckmate) and the one-ply move
    picker (GetNextMove).  A ChessBoard is a Board value; its RawBoard copy, and the
    ChessPiece[,] the source passes around, is an array2<Piece>. */
module StudentAI {
  import opened ChessTypes
  import opened ChessRules
  import opened MovePicker

  /** ChessBoard.RawBoard: an independent 8x8 copy of the board. */
  method RawBoard(b: Board) returns (a: array2<Piece>)
    ensures fresh(a) && a.Length0 == 8 && a.Length1 == 8 && Cells(a) == b
  {
    a := new Piece[8, 8]((x, y) requires 0 <= x < 8 && 0 <= y < 8 => b[x][y]);
    BoardExt(Cells(a), b);
  }

  /** A raw copy of the board with the piece on f moved to t and f emptied. */
  method RawAfter(b: Board, f: Loc, t: Loc) returns (a: array2<Piece>)
    requires OnBoard(f) && OnBoard(t)
    ensures fresh(a) && a.Length0 == 8 && a.Length1 == 8 && Cells(a) == After(b, f, t)
  {
    a := RawBoard(b);
    a[t.x, t.y] := a[f.x, f.y];
    a[f.x, f.y] := Empty;
    BoardExt(Cells(a), After(b, f, t));
  }

  /** The column walk of the rook and queen rules: no square strictly between f and t
      (same column) is occupied. */
  method ClearColumn(b: Board, f: Loc, t: Loc) returns (ok: bool)
    requires OnBoard(f) && OnBoard(t) && f.x == t.x && f.y != t.y
    ensures ok == Clear(b, f, t)
  {
    var dir := if t.y - f.y > 0 then 1 else -1;
    var i := f.y;
    while i != t.y
      invariant if dir == 1 then f.y <= i <= t.y else t.y <= i <= f.y
      invariant forall s :: OnBoard(s) && s.x == f.x && Inside(f.y, i, s.y) ==> At(b, s) == Empty
      decreases if dir == 1 then t.y - i else i - t.y
    {
      if i != f.y && b[f.x][i] != Empty {
        assert StrictlyBetween(f, t, Loc(f.x, i)) && At(b, Loc(f.x, i)) != Empty;
        return false;
      }
      i := i + dir;
    }
    return true;
  }

  /** The row walk of the rook and queen rules. */
  method ClearRow(b: Board, f: Loc, t: Loc) returns (ok: bool)
    requires OnBoard(f) && OnBoard(t) && f.y == t.y && f.x != t.x
    ensures ok == Clear(b, f, t)
  {
    var dir := if t.x - f.x > 0 then 1 else -1;
    var i := f.x;
    while i != t.x
      invariant if dir == 1 then f.x <= i <= t.x else t.x <= i <= f.x
      invariant forall s :: OnBoard(s) && s.y == f.y && Inside(f.x, i, s.x) ==> At(b, s) == Empty
      decreases if dir == 1 then t.x - i else i - t.x
    {
      if i != f.x && b[i][f.y] != Empty {
        assert StrictlyBetween(f, t, Loc(i, f.y)) && At(b, Loc(i, f.y)) != Empty;
        return false;
      }
      i := i + dir;
    }
    return true;
  }

  /** s is on the diagonal through f that rises (same) or falls (not same) with x. */
  predicate OnDiagonal(f: Loc, same: bool, s: Loc) {
    if same then s.x - f.x == s.y - f.y else s.x - f.x == f.y - s.y
  }

  /** The diagonal walk of the bishop and queen rules. */
  method ClearDiagonal(b: Board, f: Loc, t: Loc) returns (ok: bool)
    requires OnBoard(f) && OnBoard(t) && f.x != t.x && Abs(t.x - f.x) == Abs(t.y - f.y)
    ensures ok == Clear(b, f, t)
  {
    var hd := if t.x - f.x > 0 then 1 else -1;
    var vd := if t.y - f.y > 0 then 1 else -1;
    var x, y := f.x, f.y;
    ghost var k := 0;
    while x != t.x
      invariant 0 <= k <= Abs(t.x - f.x)
      invariant x == f.x + Off(hd, k) && y == f.y + Off(vd, k)
      invariant forall s :: OnBoard(s) && Inside(f.x, x, s.x) && OnDiagonal(f, hd == vd, s) ==> At(b, s) == Empty
      decreases Abs(t.x - f.x) - k
    {
      if x != f.x && b[x][y] != Empty {
        assert StrictlyBetween(f, t, Loc(x, y)) && At(b, Loc(x, y)) != Empty;
        return false;
      }
      x, y := x + hd, y + vd;
      k := k + 1;
    }
    return true;
  }

  /** IsValidMove: the move is legal for `c` (StudentAI.cs:117-277). */
  method IsValidMove(board: Board, m: Move, c: Color) returns (ok: bool)
    requires m.from.Some? && m.to.Some? && OnBoard(m.from.value) && OnBoard(m.to.value)
    requires HasKing(board, c)
    ensures ok == Legal(board, m.from.value, m.to.value, c)
  {
    var f, t := m.from.value, m.to.value;
    var moving, target := board[f.x][f.y], board[t.x][t.y];
    if moving == Empty || PieceColor(moving) != c || (target != Empty && PieceColor(target) == c) {
      return false;
    }
    assert f != t;
    var shapeOk := MovesLikePiece(board, f, t);
    if !shapeOk {
      return false;
    }
    // the scratch copy with the move made; the king of `c` must not be in check on it
    var boardAfterMove := RawAfter(board, f, t);
    KingSurvivesMove(board, f, t, c);
    var inCheck := IsInCheck(boardAfterMove, c);
    return !inCheck;
  }

  /** The per-piece part of IsValidMove (StudentAI.cs:128-269): the move has the shape the
      piece on f may make, with the squares between clear for the sliding pieces. */
  method MovesLikePiece(board: Board, f: Loc, t: Loc) returns (ok: bool)
    requires OnBoard(f) && OnBoard(t) && f != t && board[f.x][f.y] != Empty
    ensures ok == ShapeOk(board, f, t)
  {
    var moving, target := board[f.x][f.y], board[t.x][t.y];
    var dx, dy := t.x - f.x, t.y - f.y;
    match moving.kind {
    case Pawn =>
      if moving.color == Black {
        if dy < 1 || dy > 2 || (dy == 2 && (f.y != 1 || t.x != f.x || board[f.x][f.y + 1] != Empty)) ||
           Abs(dx) > 1 || (t.x == f.x && target != Empty) || (Abs(dx) == 1 && target == Empty) {
          return false;
        }
      } else {
        if -dy < 1 || -dy > 2 || (-dy == 2 && (f.y != 6 || t.x != f.x || board[f.x][f.y - 1] != Empty)) ||
           Abs(dx) > 1 || (t.x == f.x && target != Empty) || (Abs(dx) == 1 && target == Empty) {
          return false;
        }
      }
    case Rook =>
      if t.x != f.x && t.y != f.y {
        return false;
      }
      var clear;
      if t.x == f.x {
        clear := ClearColumn(board, f, t);
      } else {
        clear := ClearRow(board, f, t);
      }
      if !clear {
        return false;
      }
    case Knight =>
      if !((Abs(dx) == 1 && Abs(dy) == 2) || (Abs(dx) == 2 && Abs(dy) == 1)) {
        return false;
      }
    case Bishop =>
      if Abs(dx) != Abs(dy) {
        return false;
      }
      var clear := ClearDiagonal(board, f, t);
      if !clear {
        return false;
      }
    case Queen =>
      if t.x != f.x && t.y != f.y && Abs(dx) != Abs(dy) {
        return false;
      }
      var clear;
      if t.x == f.x {
        clear := ClearColumn(board, f, t);
      } else if t.y == f.y {
        clear := ClearRow(board, f, t);
      } else {
        clear := ClearDiagonal(board, f, t);
      }
      if !clear {
        return false;
      }
    case King =>
      if Abs(dx) > 1 || Abs(dy) > 1 {
        return false;
      }
    }
    return true;
  }

  /** One of the eight ray walks of IsInCheck: from the king on k, step in direction
      (dx, dy) until the first occupied square or the edge (StudentAI.cs:353-437). */
  method ScanRay(a: array2<Piece>, c: Color, k: Loc, dx: int, dy: int) returns (hit: bool)
    requires a.Length0 == 8 && a.Length1 == 8 && OnBoard(k)
    requires -1 <= dx <= 1 && -1 <= dy <= 1 && (dx, dy) != (0, 0)
    ensures hit == RayHit(Cells(a), c, k, dx, dy)
  {
    ghost var b := Cells(a);
    var o := Opp(c);
    var lineAttacker := if dx == 0 || dy == 0 then Pc(Rook, o) else Pc(Bishop, o);
    var i := 1;
    while OnBoard(RaySq(k, dx, dy, i))
      invariant 1 <= i <= 8
      invariant forall j :: 1 <= j < i ==> OnBoard(RaySq(k, dx, dy, j)) && At(b, RaySq(k, dx, dy, j)) == Empty
      decreases 8 - i
    {
      var s := RaySq(k, dx, dy, i);
      var p := a[s.x, s.y];
      assert p == At(b, s);
      if i == 1 && p == Pc(King, o) {
        assert Threat(At(b, s), c, i, dx, dy) && RayClearTo(b, k, dx, dy, i);
        return true;
      }
      if dx != 0 && dy != 0 && i == 1 &&
         ((dy > 0 && c == Black && p == Pc(Pawn, White)) || (dy < 0 && c == White && p == Pc(Pawn, Black))) {
        assert Threat(At(b, s), c, i, dx, dy) && RayClearTo(b, k, dx, dy, i);
        return true;
      }
      if p == lineAttacker || p == Pc(Queen, o) {
        assert Threat(At(b, s), c, i, dx, dy) && RayClearTo(b, k, dx, dy, i);
        return true;
      }
      if p != Empty {
        assert !Threat(At(b, s), c, i, dx, dy);
        assert forall i' :: i' > i ==> !RayClearTo(b, k, dx, dy, i');
        return false;
      }
      i := i + 1;
    }
    assert forall i' :: i' >= i ==> !OnBoard(RaySq(k, dx, dy, i'));
    return false;
  }

  /** A slot pair of the scan: -1, -1 while nothing has been found. */
  predicate SlotIs(o: Option<Loc>, x: int, y: int) {
    if o.None? then x == -1 && y == -1 else o.value == Loc(x, y)
  }

  /** The last square holding p seen so far, if it is not also the first one. */
  function SecondFound(b: Board, p: Piece, y: int, x: int): Option<Loc>
    requires ScanPos(y, x)
  {
    var last := LastFound(b, p, y, x);
    if last != FirstFound(b, p, y, x) then last else None
  }

  /** The scan's variables at position (y, x): KingX/KingY hold the last own king, slot 1
      the first opponent knight, slot 2 the last opponent knight if it is not the first. */
  ghost predicate ScanState(b: Board, c: Color, y: int, x: int,
                            kx: int, ky: int, x1: int, y1: int, x2: int, y2: int)
    requires ScanPos(y, x)
  {
    SlotIs(LastFound(b, Pc(King, c), y, x), kx, ky) &&
    SlotIs(FirstFound(b, Pc(Knight, Opp(c)), y, x), x1, y1) &&
    SlotIs(SecondFound(b, Pc(Knight, Opp(c)), y, x), x2, y2)
  }

  /** The row-major scan of IsInCheck (StudentAI.cs:304-334): where the own king is (the
      last one found) and the first and, if any, last further opponent knight. */
  method ScanPieces(rawBoard: array2<Piece>, c: Color, ghost b: Board)
    returns (kingX: int, kingY: int, x1: int, y1: int, x2: int, y2: int)
    requires rawBoard.Length0 == 8 && rawBoard.Length1 == 8 && b == Cells(rawBoard)
    ensures ScanState(b, c, 8, 0, kingX, kingY, x1, y1, x2, y2)
  {
    var opponentKnight, selfKing := Pc(Knight, Opp(c)), Pc(King, c);
    kingX, kingY := -1, -1;
    x1, y1, x2, y2 := -1, -1, -1, -1;
    var y := 0;
    while y < 8
      invariant 0 <= y <= 8
      invariant ScanState(b, c, y, 0, kingX, kingY, x1, y1, x2, y2)
    {
      var x := 0;
      while x < 8
        invariant 0 <= x <= 8
        invariant ScanState(b, c, y, x, kingX, kingY, x1, y1, x2, y2)
      {
        var piece := rawBoard[x, y];
        assert piece == b[x][y];
        FoundTogether(b, opponentKnight, y, x);
        if piece == selfKing {
          kingX, kingY := x, y;
        } else if piece == opponentKnight {
          if x1 == -1 {
            x1, y1 := x, y;
          } else {
            x2, y2 := x, y;
          }
        }
        x := x + 1;
      }
      y := y + 1;
    }
  }

  /** IsInCheck: the king of `c` is in check on the raw board (StudentAI.cs:296-440). */
  method IsInCheck(rawBoard: array2<Piece>, c: Color) returns (r: bool)
    requires rawBoard.Length0 == 8 && rawBoard.Length1 == 8
    requires HasKing(Cells(rawBoard), c)
    ensures r == InCheck(Cells(rawBoard), c)
  {
    ghost var b := Cells(rawBoard);
    var kingX, kingY, x1, y1, x2, y2 := ScanPieces(rawBoard, c, b);
    KingFound(b, c);
    var king := Loc(kingX, kingY);
    assert king == KingSquare(b, c);
    // knights
    if x1 != -1 {
      if KnightJump(Loc(x1, y1), king) {
        return true;
      }
      if x2 != -1 {
        if KnightJump(Loc(x2, y2), king) {
          return true;
        }
      }
    }
    FoundTogether(b, Pc(Knight, Opp(c)), 8, 0);
    assert !KnightCheck(b, c);
    // east, west, south, north, then the four diagonals
    var hit := ScanRay(rawBoard, c, king, 1, 0);
    if hit { return true; }
    hit := ScanRay(rawBoard, c, king, -1, 0);
    if hit { return true; }
    hit := ScanRay(rawBoard, c, king, 0, 1);
    if hit { return true; }
    hit := ScanRay(rawBoard, c, king, 0, -1);
    if hit { return true; }
    hit := ScanRay(rawBoard, c, king, 1, 1);
    if hit { return true; }
    hit := ScanRay(rawBoard, c, king, -1, 1);
    if hit { return true; }
    hit := ScanRay(rawBoard, c, king, 1, -1);
    if hit { return true; }
    hit := ScanRay(rawBoard, c, king, -1, -1);
    if hit { return true; }
    return false;
  }

  // ---------------------------------------------------------------------------
  // Enumerating moves

  /** No legal move of c is enumerated before (f, t). */
  ghost predicate NoLegalBefore(b: Board, c: Color, f: Loc, t: Loc)
    requires HasKing(b, c)
  {
    forall g, u {:trigger Legal(b, g, u, c)} :: OnBoard(g) && OnBoard(u) && Precedes(g, u, f, t) ==> !Legal(b, g, u, c)
  }

  /** (f, t) and (f2, t2) have the same on-board moves enumerated before them. */
  ghost predicate SamePrefix(f: Loc, t: Loc, f2: Loc, t2: Loc) {
    forall g, u :: OnBoard(g) && OnBoard(u) ==> (Precedes(g, u, f, t) <==> Precedes(g, u, f2, t2))
  }

  /** The end of a to-row is the start of the next one. */
  lemma EndOfToRow(f: Loc, y: int)
    ensures SamePrefix(f, Loc(8, y), f, Loc(0, y + 1))
  {
  }

  /** Having tried every target of f is having reached the next from-square. */
  lemma EndOfTargets(f: Loc)
    ensures SamePrefix(f, Loc(0, 8), Loc(f.x + 1, f.y), Loc(0, 0))
  {
  }

  /** The end of a from-row is the start of the next one. */
  lemma EndOfFromRow(y: int)
    ensures SamePrefix(Loc(8, y), Loc(0, 0), Loc(0, y + 1), Loc(0, 0))
  {
  }

  /** A square without a piece of c is the start of no legal move. */
  lemma NoTargets(b: Board, c: Color, f: Loc)
    requires OnBoard(f) && HasKing(b, c) && !IsOwn(At(b, f), c)
    requires NoLegalBefore(b, c, f, Loc(0, 0))
    ensures NoLegalBefore(b, c, f, Loc(0, 8))
  {
  }

  /** Nothing is enumerated before the first move. */
  lemma NothingBefore(b: Board, c: Color)
    requires HasKing(b, c)
    ensures NoLegalBefore(b, c, Loc(0, 0), Loc(0, 0))
  {
  }

  /** Once every move has been enumerated without a legal one, c has no legal move. */
  lemma NoneAtAll(b: Board, c: Color)
    requires HasKing(b, c) && NoLegalBefore(b, c, Loc(0, 8), Loc(0, 0))
    ensures Checkmated(b, c)
  {
    forall f, t | OnBoard(f) && OnBoard(t)
      ensures !Legal(b, f, t, c)
    {
      assert Precedes(f, t, Loc(0, 8), Loc(0, 0));
    }
  }

  lemma NoLegalSame(b: Board, c: Color, f: Loc, t: Loc, f2: Loc, t2: Loc)
    requires HasKing(b, c) && SamePrefix(f, t, f2, t2) && NoLegalBefore(b, c, f, t)
    ensures NoLegalBefore(b, c, f2, t2)
  {
  }

  /** IsCheckmate: `c` has no legal move on the raw board (StudentAI.cs:444-471). */
  method IsCheckmate(rawBoard: array2<Piece>, c: Color) returns (r: bool)
    requires rawBoard.Length0 == 8 && rawBoard.Length1 == 8
    requires HasKing(Cells(rawBoard), c)
    ensures r == Checkmated(Cells(rawBoard), c)
  {
    // the board IsValidMove is handed (new ChessBoard(rawBoard)); rawBoard is not changed
    var b := Cells(rawBoard);
    NothingBefore(b, c);
    var fromY := 0;
    while fromY < 8
      invariant 0 <= fromY <= 8
      invariant NoLegalBefore(b, c, Loc(0, fromY), Loc(0, 0))
    {
      var fromX := 0;
      while fromX < 8
        invariant 0 <= fromX <= 8
        invariant NoLegalBefore(b, c, Loc(fromX, fromY), Loc(0, 0))
      {
        var moveFrom := Loc(fromX, fromY);
        if b[fromX][fromY] != Empty && PieceColor(b[fromX][fromY]) == c {
          var found := HasMoveFrom(b, c, moveFrom);
          if found {
            return false;
          }
          NoMoveFrom(b, c, moveFrom);
        } else {
          NoTargets(b, c, moveFrom);
        }
        EndOfTargets(moveFrom);
        NoLegalSame(b, c, moveFrom, Loc(0, 8), Loc(fromX + 1, fromY), Loc(0, 0));
        fromX := fromX + 1;
      }
      EndOfFromRow(fromY);
      NoLegalSame(b, c, Loc(8, fromY), Loc(0, 0), Loc(0, fromY + 1), Loc(0, 0));
      fromY := fromY + 1;
    }
    NoneAtAll(b, c);
    return true;
  }

  /** The two inner loops of IsCheckmate (StudentAI.cs:453-464): whether the piece on
      moveFrom has a legal move. */
  method HasMoveFrom(b: Board, c: Color, moveFrom: Loc) returns (found: bool)
    requires OnBoard(moveFrom) && HasKing(b, c)
    ensures found <==> exists u :: OnBoard(u) && Legal(b, moveFrom, u, c)
  {
    var toY := 0;
    while toY < 8
      invariant 0 <= toY <= 8
      invariant forall u :: OnBoard(u) && u.y < toY ==> !Legal(b, moveFrom, u, c)
    {
      var toX := 0;
      while toX < 8
        invariant 0 <= toX <= 8
        invariant forall u :: OnBoard(u) && ScansBefore(u, Loc(toX, toY)) ==> !Legal(b, moveFrom, u, c)
      {
        var potentialMove := Move(Some(moveFrom), Some(Loc(toX, toY)), NoFlag, 0);
        var valid := IsValidMove(b, potentialMove, c);
        if valid {
          return true;
        }
        toX := toX + 1;
      }
      toY := toY + 1;
    }
    return false;
  }

  /** A square with no legal move from it adds no legal move to the enumeration. */
  lemma NoMoveFrom(b: Board, c: Color, f: Loc)
    requires OnBoard(f) && HasKing(b, c) && NoLegalBefore(b, c, f, Loc(0, 0))
    requires forall u :: OnBoard(u) ==> !Legal(b, f, u, c)
    ensures NoLegalBefore(b, c, f, Loc(0, 8))
  {
  }

  // ---------------------------------------------------------------------------
  // The move picker

  /** The moves from a square without a piece of `me` are all illegal and leave the
      picker's state unchanged. */
  lemma SkipSquare(b: Board, me: Color, eval: Board -> int, f: Loc)
    requires OnBoard(f) && HasKing(b, me) && OpponentKingKept(b, me) && !IsOwn(At(b, f), me)
    ensures Index(f, Loc(0, 0)) + 64 <= 4096
    ensures PickBefore(Outcomes(b, me, eval), Index(f, Loc(0, 0)) + 64) ==
            PickBefore(Outcomes(b, me, eval), Index(f, Loc(0, 0)))
  {
    var os := Outcomes(b, me, eval);
    var base := Index(f, Loc(0, 0));
    forall j | base <= j < base + 64
      ensures os[j].Illegal?
    {
      DivBy(j, 512, f.y);
      DivBy(j % 512, 64, f.x);
      OutcomeOf(b, me, eval, j);
      TryMeaning(b, me, eval, MoveOf(j).0, MoveOf(j).1);
    }
    IllegalRun(os, base, 64);
  }

  /** GetNextMove (StudentAI.cs:33-108): None when the turn is already over; otherwise
      NextMove, that is the first mating move if there is one, else the best-scoring legal
      move (the first among equals), else the stalemate sentinel.  `eval` stands for
      EvaluateBoard. */
  method GetNextMove(board: Board, myColor: Color, turnOver: bool, eval: Board -> int) returns (r: Option<Move>)
    requires HasKing(board, myColor) && OpponentKingKept(board, myColor)
    ensures r.None? <==> turnOver
    ensures r.Some? ==> r.value == NextMove(board, myColor, eval)
  {
    var myNextMove: Option<Move> := None;
    // the loop on !IsMyTurnOver() runs its body at most once: it ends with a break
    if turnOver {
      return None;
    }
    ghost var os := Outcomes(board, myColor, eval);
    var fromY := 0;
    while fromY < 8
      invariant 0 <= fromY <= 8
      invariant PickBefore(os, fromY * 512) == Held(myNextMove)
    {
      var fromX := 0;
      while fromX < 8
        invariant 0 <= fromX <= 8
        invariant PickBefore(os, fromY * 512 + fromX * 64) == Held(myNextMove)
      {
        var moveFrom := Loc(fromX, fromY);
        if board[fromX][fromY] != Empty && PieceColor(board[fromX][fromY]) == myColor {
          var mate;
          mate, myNextMove := MovesFrom(board, myColor, eval, moveFrom, myNextMove);
          if mate {
            return myNextMove;
          }
        } else {
          SkipSquare(board, myColor, eval, moveFrom);
        }
        fromX := fromX + 1;
      }
      fromY := fromY + 1;
    }
    if myNextMove.None? {
      myNextMove := Some(StalemateMove());
    }
    return myNextMove;
  }

  /** The declarative properties of NextMove, case by case. */
  lemma NextMoveSpec(b: Board, me: Color, eval: Board -> int)
    requires HasKing(b, me) && OpponentKingKept(b, me)
    ensures AnyMate(b, me) ==> FirstMate(b, me, NextMove(b, me, eval))
    ensures !AnyMate(b, me) && AnyLegal(b, me) ==> BestMove(b, me, eval, NextMove(b, me, eval))
    ensures !AnyLegal(b, me) ==> NextMove(b, me, eval) == StalemateMove()
  {
    if AnyMate(b, me) {
      NextMoveMates(b, me, eval);
    } else if AnyLegal(b, me) {
      NextMoveBest(b, me, eval);
    } else {
      NextMoveStalemate(b, me, eval);
    }
  }

  /** The two inner loops of GetNextMove (StudentAI.cs:48-90) for the piece on moveFrom:
      either a mating move, which is then the picker's final answer, or the picker's state
      after all the targets of moveFrom. */
  method MovesFrom(board: Board, myColor: Color, eval: Board -> int, moveFrom: Loc, best: Option<Move>)
    returns (mate: bool, r: Option<Move>)
    requires OnBoard(moveFrom) && HasKing(board, myColor) && OpponentKingKept(board, myColor)
    requires PickBefore(Outcomes(board, myColor, eval), Index(moveFrom, Loc(0, 0))) == Held(best)
    ensures Index(moveFrom, Loc(0, 0)) + 64 <= 4096
    ensures mate ==> r.Some? && PickBefore(Outcomes(board, myColor, eval), 4096) == Mated(r.value)
    ensures !mate ==> PickBefore(Outcomes(board, myColor, eval), Index(moveFrom, Loc(0, 0)) + 64) == Held(r)
  {
    ghost var os := Outcomes(board, myColor, eval);
    ghost var base := Index(moveFrom, Loc(0, 0));
    r := best;
    var toY := 0;
    while toY < 8
      invariant 0 <= toY <= 8
      invariant PickBefore(os, base + toY * 8) == Held(r)
    {
      var toX := 0;
      while toX < 8
        invariant 0 <= toX <= 8
        invariant PickBefore(os, base + toY * 8 + toX) == Held(r)
      {
        var moveTo := Loc(toX, toY);
        var valid, isMate, potentialMove := TryMove(board, myColor, eval, moveFrom, moveTo);
        if valid && isMate {
          MatedStays(os, base + toY * 8 + toX + 1, 4096);
          return true, Some(potentialMove);
        }
        if valid && (r.None? || r.value.value < potentialMove.value) {
          r := Some(potentialMove);
        }
        toX := toX + 1;
      }
      toY := toY + 1;
    }
    mate := false;
  }

  /** The body of GetNextMove's innermost loop up to the scoring (StudentAI.cs:52-83):
      whether (moveFrom, moveTo) is legal, whether it mates, and the move recorded for it. */
  method TryMove(board: Board, myColor: Color, eval: Board -> int, moveFrom: Loc, moveTo: Loc)
    returns (valid: bool, mate: bool, potentialMove: Move)
    requires OnBoard(moveFrom) && OnBoard(moveTo) && HasKing(board, myColor) && OpponentKingKept(board, myColor)
    ensures 0 <= Index(moveFrom, moveTo) < 4096
    ensures Outcomes(board, myColor, eval)[Index(moveFrom, moveTo)] ==
      if !valid then Illegal else if mate then Mating(potentialMove) else Scored(potentialMove)
  {
    OutcomeAt(board, myColor, eval, moveFrom, moveTo);
    var opponentColor := Opp(myColor);
    potentialMove := Move(Some(moveFrom), Some(moveTo), NoFlag, 0);
    mate := false;
    valid := IsValidMove(board, potentialMove, myColor);
    if !valid {
      return;
    }
    var boardAfterMove := RawNext(board, moveFrom, moveTo);
    var inCheck := IsInCheck(boardAfterMove, opponentColor);
    if inCheck {
      potentialMove := potentialMove.(flag := Check);
      mate := IsCheckmate(boardAfterMove, opponentColor);
      if mate {
        potentialMove := potentialMove.(flag := Checkmate);
        return;
      }
    }
    potentialMove := potentialMove.(value := Abs(eval(Cells(boardAfterMove))));
  }

  /** GetNextMove's copy of the board with the move made and a pawn reaching the far row
      promoted to a queen (StudentAI.cs:58-69). */
  method RawNext(board: Board, f: Loc, t: Loc) returns (boardAfterMove: array2<Piece>)
    requires OnBoard(f) && OnBoard(t)
    ensures fresh(boardAfterMove) && boardAfterMove.Length0 == 8 && boardAfterMove.Length1 == 8
    ensures Cells(boardAfterMove) == Next(board, f, t)
  {
    boardAfterMove := RawAfter(board, f, t);
    ghost var a := After(board, f, t);
    if boardAfterMove[t.x, t.y] == Pc(Pawn, Black) && t.y == 7 {
      boardAfterMove[t.x, t.y] := Pc(Queen, Black);
    }
    if boardAfterMove[t.x, t.y] == Pc(Pawn, White) && t.y == 0 {
      boardAfterMove[t.x, t.y] := Pc(Queen, White);
    }
    BoardExt(Cells(boardAfterMove), Next(board, f, t));
  }
}
