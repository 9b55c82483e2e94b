/** Consequences of the rules of module ChessRules that the move logic relies on or
    promises: what a legal move needs, how promotion changes the scored board, what
    IsCheckmate's answer means, and some positions that are always check. */
module ChessFacts {
  import opened ChessTypes
  import opened ChessRules

  /** A legal move moves one's own piece, not onto one's own piece, so never in place,
      and leaves one's own king out of check. */
  lemma LegalBasics(b: Board, f: Loc, t: Loc, c: Color)
    requires OnBoard(f) && OnBoard(t) && HasKing(b, c) && Legal(b, f, t, c)
    ensures IsOwn(At(b, f), c) && !IsOwn(At(b, t), c) && f != t
    ensures HasKing(After(b, f, t), c) && !InCheck(After(b, f, t), c)
  {
    KingSurvivesMove(b, f, t, c);
  }

  /** The board the picker scores is the board after the move, except that a pawn arriving
      on the far row (row 7 for Black, row 0 for White) is a queen of its colour. */
  lemma NextPromotes(b: Board, f: Loc, t: Loc)
    requires OnBoard(f) && OnBoard(t) && f != t
    ensures forall s :: OnBoard(s) && s != t ==> At(Next(b, f, t), s) == At(After(b, f, t), s)
    ensures At(Next(b, f, t), t) ==
      if At(b, f) == Pc(Pawn, Black) && t.y == 7 then Pc(Queen, Black)
      else if At(b, f) == Pc(Pawn, White) && t.y == 0 then Pc(Queen, White)
      else At(b, f)
  {
  }

  /** IsCheckmate's predicate holds exactly when there is no legal move, whether or not the
      king is in check: it also holds in stalemate. */
  lemma CheckmatedMeansNoMove(b: Board, c: Color)
    requires HasKing(b, c)
    ensures Checkmated(b, c) <==> !AnyLegal(b, c)
  {
  }

  /** One step in direction (dx, dy) from the king is a square of the ray with nothing
      before it, so a threat standing there gives check. */
  lemma ThreatNextToKing(b: Board, c: Color, dx: int, dy: int)
    requires HasKing(b, c) && -1 <= dx <= 1 && -1 <= dy <= 1 && (dx, dy) != (0, 0)
    requires OnBoard(RaySq(KingSquare(b, c), dx, dy, 1))
    requires Threat(At(b, RaySq(KingSquare(b, c), dx, dy, 1)), c, 1, dx, dy)
    ensures InCheck(b, c)
  {
    var k := KingSquare(b, c);
    assert RayClearTo(b, k, dx, dy, 1);
    assert RayHit(b, c, k, dx, dy);
  }

  /** The opponent's king on a square next to the king gives check. */
  lemma AdjacentKingChecks(b: Board, c: Color, s: Loc)
    requires HasKing(b, c) && OnBoard(s) && s != KingSquare(b, c)
    requires Abs(s.x - KingSquare(b, c).x) <= 1 && Abs(s.y - KingSquare(b, c).y) <= 1
    requires At(b, s) == Pc(King, Opp(c))
    ensures InCheck(b, c)
  {
    var k := KingSquare(b, c);
    var dx, dy := s.x - k.x, s.y - k.y;
    assert RaySq(k, dx, dy, 1) == s;
    ThreatNextToKing(b, c, dx, dy);
  }

  /** A white pawn diagonally in front of a black king from row y + 1, or a black pawn in
      front of a white king from row y - 1, gives check. */
  lemma PawnChecks(b: Board, c: Color, s: Loc)
    requires HasKing(b, c) && OnBoard(s)
    requires Abs(s.x - KingSquare(b, c).x) == 1
    requires if c == Black then s.y == KingSquare(b, c).y + 1 && At(b, s) == Pc(Pawn, White)
             else s.y == KingSquare(b, c).y - 1 && At(b, s) == Pc(Pawn, Black)
    ensures InCheck(b, c)
  {
    var k := KingSquare(b, c);
    var dx, dy := s.x - k.x, s.y - k.y;
    assert RaySq(k, dx, dy, 1) == s;
    ThreatNextToKing(b, c, dx, dy);
  }
}
