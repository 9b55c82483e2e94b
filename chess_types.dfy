/** The value types the move logic works on: colours, pieces, board squares,
    flags and moves, and the 8x8 board both as a value and as a raw 2-D array. */
module ChessTypes {

  datatype Option<+T> = None | Some(value: T)

  datatype Color = White | Black

  /** The other side. */
  function Opp(c: Color): (r: Color)
    ensures r != c
  {
    if c == White then Black else White
  }

  datatype Kind = Pawn | Rook | Knight | Bishop | Queen | King

  /** The twelve concrete pieces (a kind crossed with a colour) plus the empty square. */
  datatype Piece = Empty | Pc(kind: Kind, color: Color)

  /** A square: column x and row y, both 0-based; row 0 is Black's back rank. */
  datatype Loc = Loc(x: int, y: int)

  predicate OnBoard(l: Loc) {
    0 <= l.x < 8 && 0 <= l.y < 8
  }

  datatype Flag = NoFlag | Check | Checkmate | Stalemate

  /** A move; `from` and `to` are None only in the stalemate sentinel. */
  datatype Move = Move(from: Option<Loc>, to: Option<Loc>, flag: Flag, value: int)

  /** The "no legal move" result. */
  function StalemateMove(): Move {
    Move(None, None, Stalemate, 0)
  }

  /** An 8x8 board as a value, indexed [x][y]. */
  type Board = b: seq<seq<Piece>> | |b| == 8 && forall x :: 0 <= x < 8 ==> |b[x]| == 8
    witness seq(8, _ => seq(8, _ => Empty))

  function At(b: Board, l: Loc): Piece
    requires OnBoard(l)
  {
    b[l.x][l.y]
  }

  /** The contents of a raw 8x8 array, read as a board value. */
  function Cells(a: array2<Piece>): (b: Board)
    requires a.Length0 == 8 && a.Length1 == 8
    reads a
    ensures forall x, y :: 0 <= x < 8 && 0 <= y < 8 ==> b[x][y] == a[x, y]
  {
    seq(8, x requires 0 <= x < 8 reads a => seq(8, y requires 0 <= y < 8 reads a => a[x, y]))
  }

  /** Two boards agreeing on every square are equal. */
  lemma BoardExt(b1: Board, b2: Board)
    requires forall x, y :: 0 <= x < 8 && 0 <= y < 8 ==> b1[x][y] == b2[x][y]
    ensures b1 == b2
  {
    forall x | 0 <= x < 8
      ensures b1[x] == b2[x]
    {
      assert forall y :: 0 <= y < 8 ==> b1[x][y] == b2[x][y];
    }
  }
}
