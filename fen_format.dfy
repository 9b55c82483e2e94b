/** The text side of the game state: splitting on a separator as String.Split(' ') does,
    32-bit integers printed and parsed in decimal, and the space-separated FEN fields the
    game state reads and writes after the board field. */
module FenFormat {
  import opened ChessTypes

  /** The values of a C# int. */
  type Int32 = x: int | -0x8000_0000 <= x < 0x8000_0000

  // ---------------------------------------------------------------------------
  // Fields separated by one character

  /** s cut at every occurrence of sep; empty fields are kept, so there is always one
      field more than there are separators. */
  function Split(s: string, sep: char): (r: seq<string>)
    ensures |r| >= 1
  {
    if |s| == 0 then [""]
    else
      var rest := Split(s[1..], sep);
      if s[0] == sep then [""] + rest else [[s[0]] + rest[0]] + rest[1..]
  }

  /** The fields written one after another with sep between neighbours. */
  function Join(fields: seq<string>, sep: char): string
    requires |fields| >= 1
  {
    if |fields| == 1 then fields[0] else fields[0] + [sep] + Join(fields[1..], sep)
  }

  /** No field of a split holds the separator. */
  lemma {:induction false} SplitFieldsFree(s: string, sep: char)
    ensures forall i :: 0 <= i < |Split(s, sep)| ==> sep !in Split(s, sep)[i]
  {
    if |s| > 0 {
      SplitFieldsFree(s[1..], sep);
    }
  }

  /** Joining the fields of a split with the separator gives the text back; with
      SplitFieldsFree, the fields are exactly the separator-free pieces of s. */
  lemma {:induction false} JoinSplit(s: string, sep: char)
    ensures Join(Split(s, sep), sep) == s
  {
    if |s| > 0 {
      JoinSplit(s[1..], sep);
      var rest := Split(s[1..], sep);
      if s[0] != sep {
        if |rest| == 1 {
          assert Split(s, sep) == [[s[0]] + rest[0]];
        } else {
          assert Split(s, sep)[1..] == rest[1..];
          assert [s[0]] + rest[0] + [sep] + Join(rest[1..], sep) == [s[0]] + (rest[0] + [sep] + Join(rest[1..], sep));
        }
      } else {
        assert Split(s, sep)[1..] == rest;
      }
      assert s == [s[0]] + s[1..];
    }
  }

  /** A separator-free field followed by the separator ends exactly there. */
  lemma {:induction false} SplitFieldFirst(field: string, tail: string, sep: char)
    requires sep !in field
    ensures Split(field + [sep] + tail, sep) == [field] + Split(tail, sep)
  {
    if |field| == 0 {
      assert field + [sep] + tail == [sep] + tail;
      assert ([sep] + tail)[1..] == tail;
    } else {
      var s := field + [sep] + tail;
      assert s[1..] == field[1..] + [sep] + tail;
      assert s[0] == field[0];
      SplitFieldFirst(field[1..], tail, sep);
      assert [field[0]] + field[1..] == field;
    }
  }

  /** A separator-free field alone is one field. */
  lemma {:induction false} SplitField(field: string, sep: char)
    requires sep !in field
    ensures Split(field, sep) == [field]
  {
    if |field| > 0 {
      SplitField(field[1..], sep);
      assert [field[0]] + field[1..] == field;
    }
  }

  /** Splitting separator-free fields joined by the separator gives the fields back. */
  lemma {:induction false} SplitJoin(fields: seq<string>, sep: char)
    requires |fields| >= 1 && forall i :: 0 <= i < |fields| ==> sep !in fields[i]
    ensures Split(Join(fields, sep), sep) == fields
  {
    if |fields| == 1 {
      SplitField(fields[0], sep);
    } else {
      SplitJoin(fields[1..], sep);
      SplitFieldFirst(fields[0], Join(fields[1..], sep), sep);
      assert [fields[0]] + fields[1..] == fields;
    }
  }

  // ---------------------------------------------------------------------------
  // Decimal integers

  predicate IsDigit(c: char) {
    '0' <= c <= '9'
  }

  predicate AllDigits(s: string) {
    forall i :: 0 <= i < |s| ==> IsDigit(s[i])
  }

  function DigitChar(d: int): (c: char)
    requires 0 <= d < 10
    ensures IsDigit(c) && c as int - '0' as int == d
  {
    ('0' as int + d) as char
  }

  /** The value of a string of decimal digits, most significant first. */
  function DigitsValue(s: string): nat
    requires AllDigits(s)
  {
    if |s| == 0 then 0 else DigitsValue(s[..|s| - 1]) * 10 + (s[|s| - 1] as int - '0' as int)
  }

  /** n in decimal without leading zeros (as Int32.ToString prints it). */
  function NatText(n: nat): (r: string)
    ensures |r| >= 1 && AllDigits(r)
  {
    if n < 10 then [DigitChar(n)] else NatText(n / 10) + [DigitChar(n % 10)]
  }

  /** n in decimal, with a leading '-' when negative. */
  function IntText(n: int): string {
    if n < 0 then "-" + NatText(-n) else NatText(n)
  }

  /** Convert.ToInt32 on a field: an optional sign and at least one digit, within the range
      of an int; None stands for the FormatException or OverflowException it throws. */
  function ParseInt32(s: string): Option<Int32> {
    var signed := |s| > 0 && (s[0] == '-' || s[0] == '+');
    var digits := if signed then s[1..] else s;
    if |digits| == 0 || !AllDigits(digits) then None
    else
      var v: int := if signed && s[0] == '-' then -(DigitsValue(digits) as int) else DigitsValue(digits);
      if -0x8000_0000 <= v < 0x8000_0000 then Some(v) else None
  }

  lemma {:induction false} NatTextValue(n: nat)
    ensures DigitsValue(NatText(n)) == n
  {
    if n >= 10 {
      NatTextValue(n / 10);
      var r := NatText(n);
      assert r[..|r| - 1] == NatText(n / 10);
    }
  }

  /** Printing an int and parsing it back gives the int. */
  lemma ParseIntText(n: Int32)
    ensures ParseInt32(IntText(n)) == Some(n)
  {
    var k: int := n;
    var m: nat := if k < 0 then -k else k;
    NatTextValue(m);
    var s := IntText(n);
    if n < 0 {
      assert s[1..] == NatText(m);
    } else {
      assert NatText(m)[0] != '-' && NatText(m)[0] != '+';
    }
  }

  // ---------------------------------------------------------------------------
  // The FEN fields after the board

  /** The active-colour field as ToFenBoard writes it. */
  function ColorLetter(c: Color): string {
    if c == White then "w" else "b"
  }

  /** What ToFenBoard writes: the board field, the colour, the two placeholders for
      castling and en passant, the halfmove clock and the fullmove number, space-separated. */
  function FenText(board: string, c: Color, half: Int32, full: Int32): string {
    Join([board, ColorLetter(c), "-", "-", IntText(half), IntText(full)], ' ')
  }

  /** Six fields joined, written out. */
  lemma JoinSix(a: string, b: string, c: string, d: string, e: string, f: string, sep: char)
    ensures Join([a, b, c, d, e, f], sep) ==
      a + [sep] + (b + [sep] + (c + [sep] + (d + [sep] + (e + [sep] + f))))
  {
    var fs := [a, b, c, d, e, f];
    assert fs[1..] == [b, c, d, e, f];
    assert fs[1..][1..] == [c, d, e, f];
    assert fs[1..][1..][1..] == [d, e, f];
    assert fs[1..][1..][1..][1..] == [e, f];
    assert fs[1..][1..][1..][1..][1..] == [f];
    assert Join([e, f], sep) == e + [sep] + f;
    assert Join([d, e, f], sep) == d + [sep] + Join([e, f], sep);
    assert Join([c, d, e, f], sep) == c + [sep] + Join([d, e, f], sep);
    assert Join([b, c, d, e, f], sep) == b + [sep] + Join([c, d, e, f], sep);
  }

  /** Field 0, from which FromFenBoard builds the board. */
  function BoardField(fen: string): string {
    Split(fen, ' ')[0]
  }

  /** Field 1 read as the active colour: None when it is missing or neither "w" nor "b". */
  function ColorField(fen: string): Option<Color> {
    var fields := Split(fen, ' ');
    if |fields| < 2 then None
    else if fields[1] == "w" then Some(White)
    else if fields[1] == "b" then Some(Black)
    else None
  }

  /** Field i read as an int: None when it is missing or not an int. */
  function CounterField(fen: string, i: nat): Option<Int32> {
    var fields := Split(fen, ' ');
    if |fields| <= i then None else ParseInt32(fields[i])
  }

  /** FromFenBoard reads the text without throwing. */
  predicate FenOk(fen: string) {
    ColorField(fen).Some? && CounterField(fen, 4).Some? && CounterField(fen, 5).Some?
  }

  /** Reading what ToFenBoard writes gives back the board field, the colour and both
      counters, provided the board field has no space in it. */
  lemma FenRoundTrip(board: string, c: Color, half: Int32, full: Int32)
    requires ' ' !in board
    ensures FenOk(FenText(board, c, half, full))
    ensures BoardField(FenText(board, c, half, full)) == board
    ensures ColorField(FenText(board, c, half, full)) == Some(c)
    ensures CounterField(FenText(board, c, half, full), 4) == Some(half)
    ensures CounterField(FenText(board, c, half, full), 5) == Some(full)
  {
    var fields := [board, ColorLetter(c), "-", "-", IntText(half), IntText(full)];
    NoSpaceInInt(half);
    NoSpaceInInt(full);
    SplitJoin(fields, ' ');
    ParseIntText(half);
    ParseIntText(full);
  }

  lemma NoSpaceInInt(n: int)
    ensures ' ' !in IntText(n)
  {
    var s := IntText(n);
    if n < 0 {
      assert forall i :: 1 <= i < |s| ==> s[i] == NatText(-n)[i - 1];
    }
  }
}
