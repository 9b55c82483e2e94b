/** The rules the move picker in uvschess/StudentAI/StudentAI.cs applies, stated as
    functions and predicates on board values.  The methods of module StudentAI
    compute these with loops over raw arrays and are proved equal to them. */
module ChessRules {
  import opened ChessTypes
  import opened MovePicker

  /** Colour of a piece as the source computes it: Black for the six black pieces,
      White for everything else, the empty square included. */
  function PieceColor(p: Piece): (r: Color)
    ensures p.Pc? ==> r == p.color
    ensures p == Empty ==> r == White
  {
    match p
    case Pc(_, Black) => Black
    case _ => White
  }

  /** `p` is one of the pieces of `c`, tested as the source tests it. */
  predicate IsOwn(p: Piece, c: Color) {
    p != Empty && PieceColor(p) == c
  }

  function Abs(n: int): nat {
    if n < 0 then -n else n
  }

  // ---------------------------------------------------------------------------
  // Paths

  /** v lies strictly between a and b. */
  predicate Inside(a: int, b: int, v: int) {
    (a < v < b) || (b < v < a)
  }

  /** s lies strictly between f and t on the column, row or diagonal that joins them. */
  predicate StrictlyBetween(f: Loc, t: Loc, s: Loc) {
    if f.x == t.x then s.x == f.x && Inside(f.y, t.y, s.y)
    else if f.y == t.y then s.y == f.y && Inside(f.x, t.x, s.x)
    else Inside(f.x, t.x, s.x) &&
         (if (t.x > f.x) == (t.y > f.y) then s.x - f.x == s.y - f.y else s.x - f.x == f.y - s.y)
  }

  /** Every square strictly between f and t is empty (t itself is not looked at). */
  ghost predicate Clear(b: Board, f: Loc, t: Loc) {
    forall s :: OnBoard(s) && StrictlyBetween(f, t, s) ==> At(b, s) == Empty
  }

  // ---------------------------------------------------------------------------
  // Movement shape of each piece

  /** A pawn of colour c: one square forward onto an empty square, one square diagonally
      forward onto an occupied square, or two squares forward from its home row over an
      empty square onto an empty square.  Black moves toward higher rows from row 1,
      White toward lower rows from row 6. */
  ghost predicate PawnOk(b: Board, f: Loc, t: Loc, c: Color)
    requires OnBoard(f) && OnBoard(t)
  {
    var fwd := if c == Black then t.y - f.y else f.y - t.y;
    var home := if c == Black then 1 else 6;
    (fwd == 1 && ((t.x == f.x && At(b, t) == Empty) || (Abs(t.x - f.x) == 1 && At(b, t) != Empty)))
    || (fwd == 2 && f.y == home && t.x == f.x && At(b, t) == Empty &&
        At(b, Loc(f.x, if c == Black then f.y + 1 else f.y - 1)) == Empty)
  }

  /** The per-piece movement rule for the piece standing on f. */
  ghost predicate ShapeOk(b: Board, f: Loc, t: Loc)
    requires OnBoard(f) && OnBoard(t)
  {
    var dx, dy := t.x - f.x, t.y - f.y;
    match At(b, f)
    case Empty => false
    case Pc(kind, color) =>
      match kind
      case Pawn => PawnOk(b, f, t, color)
      case Rook => (dx == 0 || dy == 0) && Clear(b, f, t)
      case Knight => (Abs(dx) == 1 && Abs(dy) == 2) || (Abs(dx) == 2 && Abs(dy) == 1)
      case Bishop => Abs(dx) == Abs(dy) && Clear(b, f, t)
      case Queen => (dx == 0 || dy == 0 || Abs(dx) == Abs(dy)) && Clear(b, f, t)
      case King => Abs(dx) <= 1 && Abs(dy) <= 1
  }

  // ---------------------------------------------------------------------------
  // Applying a move to a copy of the board

  /** The board after the piece on f moves to t and f is emptied. */
  function After(b: Board, f: Loc, t: Loc): (r: Board)
    requires OnBoard(f) && OnBoard(t)
    ensures f != t ==> At(r, t) == At(b, f)
    ensures At(r, f) == Empty
    ensures forall s :: OnBoard(s) && s != f && s != t ==> At(r, s) == At(b, s)
  {
    seq(8, x requires 0 <= x < 8 =>
      seq(8, y requires 0 <= y < 8 =>
        if Loc(x, y) == f then Empty else if Loc(x, y) == t then At(b, f) else b[x][y]))
  }

  function Put(b: Board, l: Loc, p: Piece): (r: Board)
    requires OnBoard(l)
    ensures At(r, l) == p
    ensures forall s :: OnBoard(s) && s != l ==> At(r, s) == At(b, s)
  {
    b[l.x := b[l.x][l.y := p]]
  }

  /** The board the move picker scores: After, with a black pawn on row 7 or a white
      pawn on row 0 replaced by a queen of its colour. */
  function Next(b: Board, f: Loc, t: Loc): (r: Board)
    requires OnBoard(f) && OnBoard(t)
  {
    var a := After(b, f, t);
    if At(a, t) == Pc(Pawn, Black) && t.y == 7 then Put(a, t, Pc(Queen, Black))
    else if At(a, t) == Pc(Pawn, White) && t.y == 0 then Put(a, t, Pc(Queen, White))
    else a
  }

  // ---------------------------------------------------------------------------
  // Row-major scan of the board

  /** l comes before m in the order the source scans squares: row by row, left to right. */
  predicate ScansBefore(l: Loc, m: Loc) {
    l.y < m.y || (l.y == m.y && l.x < m.x)
  }

  /** A scan position: about to look at column x of row y (x == 8 ends a row, row 8 the board). */
  predicate ScanPos(y: int, x: int) {
    (0 <= y < 8 && 0 <= x <= 8) || (y == 8 && x == 0)
  }

  /** The squares a scan standing at (y, x) has already looked at. */
  predicate Visited(l: Loc, y: int, x: int) {
    OnBoard(l) && ScansBefore(l, Loc(x, y))
  }

  /** The first square holding p that a scan standing at (y, x) has seen. */
  function FirstFound(b: Board, p: Piece, y: int, x: int): Option<Loc>
    requires ScanPos(y, x)
    decreases y, x
  {
    if x == 0 then (if y == 0 then None else FirstFound(b, p, y - 1, 8))
    else
      var f := FirstFound(b, p, y, x - 1);
      if f.Some? then f else if b[x - 1][y] == p then Some(Loc(x - 1, y)) else None
  }

  /** The last square holding p that a scan standing at (y, x) has seen. */
  function LastFound(b: Board, p: Piece, y: int, x: int): Option<Loc>
    requires ScanPos(y, x)
    decreases y, x
  {
    if x == 0 then (if y == 0 then None else LastFound(b, p, y - 1, 8))
    else if b[x - 1][y] == p then Some(Loc(x - 1, y))
    else LastFound(b, p, y, x - 1)
  }

  /** FirstFound finds a visited square holding p, and no visited square before it holds p. */
  lemma {:induction false} FirstFoundIsFirst(b: Board, p: Piece, y: int, x: int)
    requires ScanPos(y, x)
    decreases y, x
    ensures var r := FirstFound(b, p, y, x);
      (r.Some? ==> Visited(r.value, y, x) && At(b, r.value) == p) &&
      (forall l :: Visited(l, y, x) && (r.None? || ScansBefore(l, r.value)) ==> At(b, l) != p)
  {
    if x == 0 {
      if y > 0 {
        FirstFoundIsFirst(b, p, y - 1, 8);
      }
    } else {
      FirstFoundIsFirst(b, p, y, x - 1);
    }
  }

  /** LastFound finds a visited square holding p, and no visited square after it holds p. */
  lemma {:induction false} LastFoundIsLast(b: Board, p: Piece, y: int, x: int)
    requires ScanPos(y, x)
    decreases y, x
    ensures var r := LastFound(b, p, y, x);
      (r.Some? ==> Visited(r.value, y, x) && At(b, r.value) == p) &&
      (forall l :: Visited(l, y, x) && (r.None? || ScansBefore(r.value, l)) ==> At(b, l) != p)
  {
    if x == 0 {
      if y > 0 {
        LastFoundIsLast(b, p, y - 1, 8);
      }
    } else {
      LastFoundIsLast(b, p, y, x - 1);
    }
  }

  /** Both scans find something exactly when p stands on a visited square, and what they
      find has been visited. */
  lemma FoundTogether(b: Board, p: Piece, y: int, x: int)
    requires ScanPos(y, x)
    ensures FirstFound(b, p, y, x).Some? == LastFound(b, p, y, x).Some?
    ensures FirstFound(b, p, y, x).Some? ==> Visited(FirstFound(b, p, y, x).value, y, x)
    ensures LastFound(b, p, y, x).Some? ==> Visited(LastFound(b, p, y, x).value, y, x)
  {
    FirstFoundIsFirst(b, p, y, x);
    LastFoundIsLast(b, p, y, x);
  }

  ghost predicate HasKing(b: Board, c: Color) {
    exists l :: OnBoard(l) && At(b, l) == Pc(King, c)
  }

  /** A piece that stands somewhere on the board is found by both full scans. */
  lemma FoundByScan(b: Board, p: Piece, l: Loc)
    requires OnBoard(l) && At(b, l) == p
    ensures FirstFound(b, p, 8, 0).Some? && LastFound(b, p, 8, 0).Some?
  {
    FirstFoundIsFirst(b, p, 8, 0);
    LastFoundIsLast(b, p, 8, 0);
    assert Visited(l, 8, 0);
  }

  /** A king of colour c on the board is found by the full scan. */
  lemma KingFound(b: Board, c: Color)
    requires HasKing(b, c)
    ensures LastFound(b, Pc(King, c), 8, 0).Some?
  {
    var l :| OnBoard(l) && At(b, l) == Pc(King, c);
    FoundByScan(b, Pc(King, c), l);
  }

  /** The square where the scan of IsInCheck leaves KingX and KingY: the last king of
      colour c in scan order. */
  function KingSquare(b: Board, c: Color): (k: Loc)
    requires HasKing(b, c)
    ensures OnBoard(k) && At(b, k) == Pc(King, c)
    ensures forall l :: OnBoard(l) && ScansBefore(k, l) ==> At(b, l) != Pc(King, c)
  {
    KingFound(b, c);
    LastFoundIsLast(b, Pc(King, c), 8, 0);
    assert forall l :: OnBoard(l) ==> Visited(l, 8, 0);
    LastFound(b, Pc(King, c), 8, 0).value
  }

  // ---------------------------------------------------------------------------
  // Check detection as the source performs it

  predicate KnightJump(a: Loc, k: Loc) {
    (Abs(a.x - k.x) == 2 && Abs(a.y - k.y) == 1) || (Abs(a.x - k.x) == 1 && Abs(a.y - k.y) == 2)
  }

  /** The knight test: the scan remembers the first opponent knight and, if there are
      more, the last one; only those two are tested against the king square. */
  ghost predicate KnightCheck(b: Board, c: Color)
    requires HasKing(b, c)
  {
    var k := KingSquare(b, c);
    var n := Pc(Knight, Opp(c));
    var first, last := FirstFound(b, n, 8, 0), LastFound(b, n, 8, 0);
    first.Some? && (KnightJump(first.value, k) || (last.Some? && last != first && KnightJump(last.value, k)))
  }

  /** i steps from 0 in direction d (one of -1, 0, 1). */
  function Off(d: int, i: int): int {
    if d > 0 then i else if d < 0 then -i else 0
  }

  /** The square i steps from k in direction (dx, dy). */
  function RaySq(k: Loc, dx: int, dy: int, i: int): Loc {
    Loc(k.x + Off(dx, i), k.y + Off(dy, i))
  }

  /** The occupant p, found i steps from a king of colour c in direction (dx, dy) with
      nothing in between, attacks the king: the opponent king next to it, an opponent
      rook (straight) or bishop (diagonal) or queen at any distance, or an opponent pawn
      diagonally next to it on the side it captures from. */
  predicate Threat(p: Piece, c: Color, i: int, dx: int, dy: int) {
    var o := Opp(c);
    var diagonal := dx != 0 && dy != 0;
    (i == 1 && p == Pc(King, o))
    || (diagonal && i == 1 &&
        ((dy > 0 && c == Black && p == Pc(Pawn, White)) || (dy < 0 && c == White && p == Pc(Pawn, Black))))
    || (!diagonal && p == Pc(Rook, o))
    || (diagonal && p == Pc(Bishop, o))
    || p == Pc(Queen, o)
  }

  /** The first i - 1 squares of the ray are empty. */
  ghost predicate RayClearTo(b: Board, k: Loc, dx: int, dy: int, i: int) {
    forall j :: 1 <= j < i && OnBoard(RaySq(k, dx, dy, j)) ==> At(b, RaySq(k, dx, dy, j)) == Empty
  }

  /** Walking from k in direction (dx, dy), the first occupied square holds a threat. */
  ghost predicate RayHit(b: Board, c: Color, k: Loc, dx: int, dy: int) {
    exists i :: 1 <= i && OnBoard(RaySq(k, dx, dy, i)) && RayClearTo(b, k, dx, dy, i) &&
      Threat(At(b, RaySq(k, dx, dy, i)), c, i, dx, dy)
  }

  /** What IsInCheck decides: the knight test, then the four straight rays, then the
      four diagonal rays, all from the king square the scan found. */
  ghost predicate InCheck(b: Board, c: Color)
    requires HasKing(b, c)
  {
    var k := KingSquare(b, c);
    KnightCheck(b, c)
    || RayHit(b, c, k, 1, 0) || RayHit(b, c, k, -1, 0) || RayHit(b, c, k, 0, 1) || RayHit(b, c, k, 0, -1)
    || RayHit(b, c, k, 1, 1) || RayHit(b, c, k, -1, 1) || RayHit(b, c, k, 1, -1) || RayHit(b, c, k, -1, -1)
  }

  // ---------------------------------------------------------------------------
  // Legality, checkmate

  /** A move of one's own piece onto a square not holding one's own piece keeps
      one's king on the board. */
  lemma KingSurvivesMove(b: Board, f: Loc, t: Loc, c: Color)
    requires OnBoard(f) && OnBoard(t) && HasKing(b, c)
    requires IsOwn(At(b, f), c) && !IsOwn(At(b, t), c)
    ensures HasKing(After(b, f, t), c)
  {
    var l :| OnBoard(l) && At(b, l) == Pc(King, c);
    if l == f {
      assert At(After(b, f, t), t) == Pc(King, c);
    } else {
      assert At(After(b, f, t), l) == Pc(King, c);
    }
  }

  /** What IsValidMove decides: c moves its own piece, not onto its own piece, by that
      piece's movement rule, and its king is not in check on the board after the move. */
  ghost predicate Legal(b: Board, f: Loc, t: Loc, c: Color)
    requires OnBoard(f) && OnBoard(t) && HasKing(b, c)
  {
    IsOwn(At(b, f), c) && !IsOwn(At(b, t), c) && ShapeOk(b, f, t) &&
    (KingSurvivesMove(b, f, t, c); !InCheck(After(b, f, t), c))
  }

  /** What IsCheckmate decides: c has no legal move at all (it does not look at check). */
  ghost predicate Checkmated(b: Board, c: Color)
    requires HasKing(b, c)
  {
    forall f, t :: OnBoard(f) && OnBoard(t) ==> !Legal(b, f, t, c)
  }

  // ---------------------------------------------------------------------------
  // Move selection

  /** (f, t) is enumerated before (g, u): by from-row, from-column, to-row, to-column. */
  predicate Precedes(f: Loc, t: Loc, g: Loc, u: Loc) {
    ScansBefore(f, g) || (f == g && ScansBefore(t, u))
  }

  /** Every legal move of `me` leaves a king of the opponent on the board. */
  ghost predicate OpponentKingKept(b: Board, me: Color)
    requires HasKing(b, me)
  {
    forall f, t :: OnBoard(f) && OnBoard(t) && Legal(b, f, t, me) ==> HasKing(Next(b, f, t), Opp(me))
  }

  /** (f, t) is a legal move of `me` after which the opponent is in check with no legal move. */
  ghost predicate Mates(b: Board, me: Color, f: Loc, t: Loc)
    requires OnBoard(f) && OnBoard(t) && HasKing(b, me)
  {
    Legal(b, f, t, me) && HasKing(Next(b, f, t), Opp(me)) &&
    InCheck(Next(b, f, t), Opp(me)) && Checkmated(Next(b, f, t), Opp(me))
  }

  ghost predicate AnyMate(b: Board, me: Color)
    requires HasKing(b, me)
  {
    exists f, t :: OnBoard(f) && OnBoard(t) && Mates(b, me, f, t)
  }

  ghost predicate AnyLegal(b: Board, me: Color)
    requires HasKing(b, me)
  {
    exists f, t :: OnBoard(f) && OnBoard(t) && Legal(b, f, t, me)
  }

  /** The score of a move: the magnitude of the evaluator on the board after it. */
  function MoveValue(b: Board, eval: Board -> int, f: Loc, t: Loc): nat
    requires OnBoard(f) && OnBoard(t)
  {
    Abs(eval(Next(b, f, t)))
  }

  /** The move the picker records for a legal, non-mating (f, t): flagged Check when it
      gives check, carrying its score. */
  ghost function Candidate(b: Board, me: Color, eval: Board -> int, f: Loc, t: Loc): Move
    requires OnBoard(f) && OnBoard(t) && HasKing(Next(b, f, t), Opp(me))
  {
    Move(Some(f), Some(t), if InCheck(Next(b, f, t), Opp(me)) then Check else NoFlag, MoveValue(b, eval, f, t))
  }

  /** m is the first mating move in enumeration order, flagged Checkmate. */
  ghost predicate FirstMate(b: Board, me: Color, m: Move)
    requires HasKing(b, me)
  {
    m.from.Some? && m.to.Some? && OnBoard(m.from.value) && OnBoard(m.to.value) &&
    m == Move(m.from, m.to, Checkmate, 0) &&
    Mates(b, me, m.from.value, m.to.value) &&
    forall f, t :: OnBoard(f) && OnBoard(t) && Precedes(f, t, m.from.value, m.to.value) ==> !Mates(b, me, f, t)
  }

  /** m is the candidate of a legal move whose score no legal move exceeds and that no
      earlier legal move equals. */
  ghost predicate BestMove(b: Board, me: Color, eval: Board -> int, m: Move)
    requires HasKing(b, me)
  {
    m.from.Some? && m.to.Some? && OnBoard(m.from.value) && OnBoard(m.to.value) &&
    Legal(b, m.from.value, m.to.value, me) && HasKing(Next(b, m.from.value, m.to.value), Opp(me)) &&
    m == Candidate(b, me, eval, m.from.value, m.to.value) &&
    (forall f, t :: OnBoard(f) && OnBoard(t) && Legal(b, f, t, me) ==> MoveValue(b, eval, f, t) <= m.value) &&
    (forall f, t :: OnBoard(f) && OnBoard(t) && Precedes(f, t, m.from.value, m.to.value) && Legal(b, f, t, me) ==>
       MoveValue(b, eval, f, t) < m.value)
  }

  // ---------------------------------------------------------------------------
  // The picker run on the chess moves

  /** Position of (f, t) in the enumeration order of Precedes. */
  function Index(f: Loc, t: Loc): int {
    f.y * 512 + f.x * 64 + t.y * 8 + t.x
  }

  /** The move at position j of the enumeration. */
  function MoveOf(j: int): (Loc, Loc) {
    var fromRow := j / 512;
    var r := j % 512;
    var fromColumn := r / 64;
    var s := r % 64;
    (Loc(fromColumn, fromRow), Loc(s % 8, s / 8))
  }

  lemma MoveOfIndex(f: Loc, t: Loc)
    requires OnBoard(f) && OnBoard(t)
    ensures 0 <= Index(f, t) < 4096 && MoveOf(Index(f, t)) == (f, t)
  {
    var j := Index(f, t);
    DivBy(j, 512, f.y);
    DivBy(j % 512, 64, f.x);
    DivBy(j % 512 % 64, 8, t.y);
  }

  lemma IndexOfMove(j: int)
    requires 0 <= j < 4096
    ensures OnBoard(MoveOf(j).0) && OnBoard(MoveOf(j).1) && Index(MoveOf(j).0, MoveOf(j).1) == j
  {
  }

  /** j lies in the n-block numbered q. */
  lemma DivBy(j: int, n: int, q: int)
    requires 0 < n && q * n <= j < q * n + n
    ensures j / n == q && j % n == j - q * n
  {
    var d := j / n;
    assert j == d * n + j % n && 0 <= j % n < n;
    if d < q {
      MulLe(d, q - 1, n);
      assert false;
    } else if d > q {
      MulLe(q + 1, d, n);
      assert false;
    }
  }

  lemma MulLe(a: int, b: int, n: int)
    requires a <= b && 0 < n
    ensures a * n <= b * n
  {
  }

  /** The enumeration order is the order of positions. */
  lemma PrecedesIndex(f: Loc, t: Loc, g: Loc, u: Loc)
    requires OnBoard(f) && OnBoard(t) && OnBoard(g) && OnBoard(u)
    ensures Precedes(f, t, g, u) <==> Index(f, t) < Index(g, u)
  {
  }

  /** What trying (f, t) yields: illegal, a mate (flagged Checkmate, score 0), or the
      candidate move with its score. */
  ghost function ChessTry(b: Board, me: Color, eval: Board -> int, f: Loc, t: Loc): Try
    requires OnBoard(f) && OnBoard(t) && HasKing(b, me) && OpponentKingKept(b, me)
  {
    if !Legal(b, f, t, me) then Illegal
    else if Mates(b, me, f, t) then Mating(Move(Some(f), Some(t), Checkmate, 0))
    else Scored(Candidate(b, me, eval, f, t))
  }

  /** The outcome at position j, for a position among the 4096. */
  ghost function TryAt(b: Board, me: Color, eval: Board -> int, j: int): Try {
    if 0 <= j < 4096 && HasKing(b, me) && OpponentKingKept(b, me) then
      IndexOfMove(j);
      ChessTry(b, me, eval, MoveOf(j).0, MoveOf(j).1)
    else Illegal
  }

  /** The outcomes of the first n from/to pairs in enumeration order. */
  ghost function OutcomesUpTo(b: Board, me: Color, eval: Board -> int, n: nat): (os: seq<Try>)
    ensures |os| == n
  {
    if n == 0 then [] else OutcomesUpTo(b, me, eval, n - 1) + [TryAt(b, me, eval, n - 1)]
  }

  /** The outcomes of all 4096 from/to pairs in enumeration order. */
  ghost function Outcomes(b: Board, me: Color, eval: Board -> int): (os: seq<Try>)
    ensures |os| == 4096
  {
    OutcomesUpTo(b, me, eval, 4096)
  }

  lemma {:induction false} OutcomeUpTo(b: Board, me: Color, eval: Board -> int, n: nat, j: int)
    requires 0 <= j < n
    ensures OutcomesUpTo(b, me, eval, n)[j] == TryAt(b, me, eval, j)
  {
    if j < n - 1 {
      OutcomeUpTo(b, me, eval, n - 1, j);
    }
  }

  lemma OutcomeOf(b: Board, me: Color, eval: Board -> int, j: int)
    requires 0 <= j < 4096 && HasKing(b, me) && OpponentKingKept(b, me)
    ensures OnBoard(MoveOf(j).0) && OnBoard(MoveOf(j).1)
    ensures Outcomes(b, me, eval)[j] == ChessTry(b, me, eval, MoveOf(j).0, MoveOf(j).1)
  {
    IndexOfMove(j);
    OutcomeUpTo(b, me, eval, 4096, j);
  }

  lemma OutcomeAt(b: Board, me: Color, eval: Board -> int, f: Loc, t: Loc)
    requires OnBoard(f) && OnBoard(t) && HasKing(b, me) && OpponentKingKept(b, me)
    ensures 0 <= Index(f, t) < 4096
    ensures Outcomes(b, me, eval)[Index(f, t)] == ChessTry(b, me, eval, f, t)
  {
    MoveOfIndex(f, t);
    OutcomeOf(b, me, eval, Index(f, t));
  }

  /** The move GetNextMove returns when it is its turn. */
  ghost function NextMove(b: Board, me: Color, eval: Board -> int): Move
    requires HasKing(b, me) && OpponentKingKept(b, me)
  {
    Chosen(PickBefore(Outcomes(b, me, eval), 4096))
  }

  /** What each kind of outcome says about the move tried. */
  lemma TryMeaning(b: Board, me: Color, eval: Board -> int, f: Loc, t: Loc)
    requires OnBoard(f) && OnBoard(t) && HasKing(b, me) && OpponentKingKept(b, me)
    ensures ChessTry(b, me, eval, f, t).Illegal? <==> !Legal(b, f, t, me)
    ensures ChessTry(b, me, eval, f, t).Mating? <==> Mates(b, me, f, t)
    ensures ChessTry(b, me, eval, f, t).Mating? ==>
      ChessTry(b, me, eval, f, t).m == Move(Some(f), Some(t), Checkmate, 0)
    ensures ChessTry(b, me, eval, f, t).Scored? ==>
      HasKing(Next(b, f, t), Opp(me)) && ChessTry(b, me, eval, f, t).m == Candidate(b, me, eval, f, t) &&
      ChessTry(b, me, eval, f, t).m.value == MoveValue(b, eval, f, t)
  {
  }

  /** The first mating outcome is the first mating move. */
  lemma FirstMatingMove(b: Board, me: Color, eval: Board -> int, j: int)
    requires HasKing(b, me) && OpponentKingKept(b, me) && FirstMatingAt(Outcomes(b, me, eval), j)
    ensures FirstMate(b, me, Outcomes(b, me, eval)[j].m)
  {
    var os := Outcomes(b, me, eval);
    OutcomeOf(b, me, eval, j);
    var (g, u) := MoveOf(j);
    TryMeaning(b, me, eval, g, u);
    forall f, t | OnBoard(f) && OnBoard(t) && Precedes(f, t, g, u)
      ensures !Mates(b, me, f, t)
    {
      PrecedesIndex(f, t, g, u);
      IndexOfMove(j);
      OutcomeAt(b, me, eval, f, t);
      TryMeaning(b, me, eval, f, t);
    }
  }

  /** With a mate available, NextMove is the first mating move. */
  lemma NextMoveMates(b: Board, me: Color, eval: Board -> int)
    requires HasKing(b, me) && OpponentKingKept(b, me) && AnyMate(b, me)
    ensures FirstMate(b, me, NextMove(b, me, eval))
  {
    var os := Outcomes(b, me, eval);
    var f, t :| OnBoard(f) && OnBoard(t) && Mates(b, me, f, t);
    OutcomeAt(b, me, eval, f, t);
    TryMeaning(b, me, eval, f, t);
    ChosenSpec(os);
    var j :| FirstMatingAt(os, j) && NextMove(b, me, eval) == os[j].m;
    FirstMatingMove(b, me, eval, j);
  }

  /** The best scored outcome is the best legal move. */
  lemma BestScoredMove(b: Board, me: Color, eval: Board -> int, j: int)
    requires HasKing(b, me) && OpponentKingKept(b, me) && !AnyMate(b, me) && BestAt(Outcomes(b, me, eval), 4096, j)
    ensures BestMove(b, me, eval, Outcomes(b, me, eval)[j].m)
  {
    var os := Outcomes(b, me, eval);
    OutcomeOf(b, me, eval, j);
    var (g, u) := MoveOf(j);
    TryMeaning(b, me, eval, g, u);
    var m := os[j].m;
    forall f, t | OnBoard(f) && OnBoard(t) && Legal(b, f, t, me)
      ensures MoveValue(b, eval, f, t) <= m.value
      ensures Precedes(f, t, g, u) ==> MoveValue(b, eval, f, t) < m.value
    {
      PrecedesIndex(f, t, g, u);
      IndexOfMove(j);
      OutcomeAt(b, me, eval, f, t);
      TryMeaning(b, me, eval, f, t);
    }
  }

  /** With no mate but some legal move, NextMove is the best-scoring legal move. */
  lemma NextMoveBest(b: Board, me: Color, eval: Board -> int)
    requires HasKing(b, me) && OpponentKingKept(b, me) && !AnyMate(b, me) && AnyLegal(b, me)
    ensures BestMove(b, me, eval, NextMove(b, me, eval))
  {
    var os := Outcomes(b, me, eval);
    forall j | 0 <= j < 4096
      ensures !os[j].Mating?
    {
      OutcomeOf(b, me, eval, j);
      TryMeaning(b, me, eval, MoveOf(j).0, MoveOf(j).1);
    }
    var f, t :| OnBoard(f) && OnBoard(t) && Legal(b, f, t, me);
    OutcomeAt(b, me, eval, f, t);
    TryMeaning(b, me, eval, f, t);
    ChosenSpec(os);
    var j :| BestAt(os, 4096, j) && NextMove(b, me, eval) == os[j].m;
    BestScoredMove(b, me, eval, j);
  }

  /** With no legal move at all, NextMove is the stalemate sentinel. */
  lemma NextMoveStalemate(b: Board, me: Color, eval: Board -> int)
    requires HasKing(b, me) && OpponentKingKept(b, me) && !AnyLegal(b, me)
    ensures NextMove(b, me, eval) == StalemateMove()
  {
    var os := Outcomes(b, me, eval);
    forall j | 0 <= j < 4096
      ensures os[j].Illegal?
    {
      OutcomeOf(b, me, eval, j);
    }
    ChosenSpec(os);
  }
}
