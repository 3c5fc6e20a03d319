/** The text rendering of `discord/format.go`: the board as rows of emoji, and the framing of
    error and success messages. */
module Format {
  import opened Strs
  import opened Games

  // ---------------------------------------------------------------- tables

  /** Row labels, regional indicator letters A to H (`ySlice`). */
  const RowLabels: seq<string> := [
    "\U{1F1E6}", "\U{1F1E7}", "\U{1F1E8}", "\U{1F1E9}",
    "\U{1F1EA}", "\U{1F1EB}", "\U{1F1EC}", "\U{1F1ED}"]

  /** Column labels, keycap digits 1 to 4 (`xSlice`). */
  const ColumnLabels: seq<string> := [
    "1\U{FE0F}\U{20E3}", "2\U{FE0F}\U{20E3}", "3\U{FE0F}\U{20E3}", "4\U{FE0F}\U{20E3}"]

  /** The board symbols that mark a move target, in the order north-west, north-east,
      south-west, south-east (`directionSlice`). */
  const DirectionSymbols: seq<char> := ['N', 'n', 'S', 's']

  /** The arrows shown for those move targets, in the same order (`movesSlice`). */
  const MoveArrows: seq<string> := [
    "\U{2196}\U{FE0F}", "\U{2197}\U{FE0F}", "\U{2199}\U{FE0F}", "\U{2198}\U{FE0F}"]

  /** The light square drawn beside every dark one. */
  const LightSquare: string := "\U{2B1C}"

  /** The bottom line: a record button, then each column label twice. */
  const Footer: string :=
    "\U{23FA}" + ColumnLabels[0] + ColumnLabels[0] + ColumnLabels[1] + ColumnLabels[1]
    + ColumnLabels[2] + ColumnLabels[2] + ColumnLabels[3] + ColumnLabels[3]

  // ---------------------------------------------------------------- board

  /** The board symbols `formatBoard` knows: the five piece symbols and the four move targets. */
  predicate Known(c: char)
  {
    c in {'0', '1', '2', '3', '4'} || c in DirectionSymbols
  }

  /** The emoji for one board symbol; a symbol outside the switch shows as nothing. */
  function Glyph(c: char): (e: string)
    ensures e == "" <==> !Known(c)
    ensures forall k | 0 <= k < 4 :: c == DirectionSymbols[k] ==> e == MoveArrows[k]
  {
    match c
    case '0' => "\U{2B1B}"
    case '1' => "\U{1F535}"
    case '2' => "\U{1F534}"
    case '3' => "\U{1F499}"
    case '4' => "\U{2764}\U{FE0F}"
    case 'N' => MoveArrows[0]
    case 'n' => MoveArrows[1]
    case 'S' => MoveArrows[2]
    case 's' => MoveArrows[3]
    case _ => ""
  }

  /** No two known symbols share an emoji, so the picture determines the board. */
  lemma GlyphInjective(c: char, d: char)
    requires Known(c) && Known(d) && Glyph(c) == Glyph(d)
    ensures c == d
  {
    assert Glyph(c)[0] == Glyph(d)[0];
  }

  /** One dark square with its light neighbour: the light square comes first on even rows and
      second on odd rows, as on a real checkerboard. */
  function SquareText(row: nat, c: char): (r: string)
    ensures |r| == |Glyph(c)| + 1
    ensures row % 2 == 0 ==> r[..1] == LightSquare && r[1..] == Glyph(c)
    ensures row % 2 == 1 ==> r[..|r| - 1] == Glyph(c) && r[|r| - 1..] == LightSquare
  {
    if row % 2 == 0 then LightSquare + Glyph(c) else Glyph(c) + LightSquare
  }

  /** What the cell in column `col` of row `row` contributes: the row label before the first
      cell of a row, the square, and a line break after the last cell of a row. */
  function CellPieces(row: nat, col: nat, c: char): (r: seq<string>)
    requires row < 8 && col < 4
    ensures |r| == 1 + (if col == 0 then 1 else 0) + (if col == 3 then 1 else 0)
    ensures r[0] == (if col == 0 then RowLabels[row] else SquareText(row, c))
    ensures r[|r| - 1] == (if col == 3 then "\n" else SquareText(row, c))
  {
    (if col == 0 then [RowLabels[row]] else [])
    + [SquareText(row, c)]
    + (if col == 3 then ["\n"] else [])
  }

  /** The pieces of text for the first `n` cells of the board, cell by cell. */
  function Pieces(board: string, n: nat): (r: seq<string>)
    requires n <= |board| <= 32
    // at least one piece per cell
    ensures |r| >= n
  {
    if n == 0 then [] else Pieces(board, n - 1) + CellPieces((n - 1) / 4, (n - 1) % 4, board[n - 1])
  }

  /** The exact number of pieces: one per cell, one label per started row and one line break
      per finished row. */
  lemma {:induction false} PiecesLength(board: string, n: nat)
    requires n <= |board| <= 32
    ensures |Pieces(board, n)| == n + (n + 3) / 4 + n / 4
  {
    if n > 0 {
      PiecesLength(board, n - 1);
      var q, c := (n - 1) / 4, (n - 1) % 4;
      assert n - 1 == 4 * q + c;
      RowAndColumn(q + 1, c);
      assert (n + 3) / 4 == q + 1;
      if c == 0 { RowAndColumn(q, 2); } else { RowAndColumn(q + 1, c - 1); }
      assert (n + 2) / 4 == if c == 0 then q else q + 1;
      if c == 3 { RowAndColumn(q + 1, 0); } else { RowAndColumn(q, c + 1); }
      assert n / 4 == if c == 3 then q + 1 else q;
      var cell := CellPieces(q, c, board[n - 1]);
      assert Pieces(board, n) == Pieces(board, n - 1) + cell;
      assert |cell| == 1 + (if c == 0 then 1 else 0) + (if c == 3 then 1 else 0);
      assert |Pieces(board, n - 1)| == n - 1 + (if c == 0 then q else q + 1) + q;
    }
  }

  /** The pieces written one after another. */
  function Concat(parts: seq<string>): string
  {
    if parts == [] then "" else Concat(parts[..|parts| - 1]) + parts[|parts| - 1]
  }

  /** One full row of the picture: its row label, its four squares and a line break. */
  function RowText(row: nat, cells: string): (r: string)
    requires row < 8 && |cells| == 4
  {
    RowLabels[row] + SquareText(row, cells[0]) + SquareText(row, cells[1])
      + SquareText(row, cells[2]) + SquareText(row, cells[3]) + "\n"
  }

  /** The first `k` rows of the picture. */
  function Rows(board: string, k: nat): string
    requires k <= 8 && 4 * k <= |board|
  {
    if k == 0 then "" else Rows(board, k - 1) + RowText(k - 1, board[4 * (k - 1) .. 4 * k])
  }

  /** `formatBoard`: one pass over the board, collecting the pieces of text, then the footer,
      all joined with no separator. Boards longer than 32 cells would index past the row labels. */
  method FormatBoard(board: string) returns (r: string)
    requires |board| <= 32
    ensures r == Concat(Pieces(board, |board|)) + Footer
  {
    var formatted: seq<string> := [];
    for i := 0 to |board|
      invariant formatted == Pieces(board, i)
    {
      ghost var before := formatted;
      var row := i / 4;
      var e := Glyph(board[i]);
      if (i + 1) % 4 == 1 {
        formatted := formatted + [RowLabels[row]];
      }
      if row % 2 == 0 {
        formatted := formatted + [LightSquare + e];
      } else {
        formatted := formatted + [e + LightSquare];
      }
      if (i + 1) % 4 == 0 {
        formatted := formatted + ["\n"];
      }
      CellStep(board, i, e, before, formatted);
    }
    r := Join(formatted + [Footer], "");
    JoinLast(formatted, Footer);
  }

  /** Joining with the empty separator after adding a last piece writes that piece last. */
  lemma JoinLast(parts: seq<string>, last: string)
    ensures Join(parts + [last], "") == Concat(parts) + last
  {
    JoinEmpty(parts + [last]);
    ConcatAppend(parts, [last]);
    assert [last][..0] == [];
  }

  /** A full board is drawn as its eight rows, top to bottom, then the footer. */
  lemma FullBoard(board: string)
    requires |board| == 32
    ensures Concat(Pieces(board, 32)) == Rows(board, 8)
  {
    PiecesRows(board, 8);
  }

  /** The pieces of the first `k` rows write out those rows. */
  lemma {:induction false} PiecesRows(board: string, k: nat)
    requires k <= 8 && 4 * k <= |board| <= 32
    ensures Concat(Pieces(board, 4 * k)) == Rows(board, k)
  {
    if k > 0 {
      var row := k - 1;
      var n := 4 * row;
      var cells := board[n .. n + 4];
      var before, added := Pieces(board, n), RowPiecesOf(row, cells);
      calc {
        Concat(Pieces(board, 4 * k));
        { RowPieces(board, row); assert n + 4 == 4 * k; }
        Concat(before + added);
        { ConcatAppend(before, added); }
        Concat(before) + Concat(added);
        { PiecesRows(board, row); RowConcat(row, cells); }
        Rows(board, row) + RowText(row, cells);
        { RowsStep(board, k, cells); }
        Rows(board, k);
      }
    }
  }

  /** The first `k` rows are the first `k - 1` rows followed by row `k - 1`. */
  lemma RowsStep(board: string, k: nat, cells: string)
    requires 0 < k <= 8 && 4 * k <= |board| <= 32 && cells == board[4 * (k - 1) .. 4 * k]
    ensures Rows(board, k) == Rows(board, k - 1) + RowText(k - 1, cells)
  {
  }

  /** Writing out the pieces of one row gives that row's text. */
  lemma RowConcat(row: nat, cells: string)
    requires row < 8 && |cells| == 4
    ensures Concat(RowPiecesOf(row, cells)) == RowText(row, cells)
  {
    var p := RowPiecesOf(row, cells);
    ConcatSix(p[0], p[1], p[2], p[3], p[4], p[5]);
    assert [p[0], p[1], p[2], p[3], p[4], p[5]] == p;
  }

  /** The pieces of one full row: its row label, its four squares and a line break. */
  function RowPiecesOf(row: nat, cells: string): seq<string>
    requires row < 8 && |cells| == 4
  {
    [RowLabels[row], SquareText(row, cells[0]), SquareText(row, cells[1]),
     SquareText(row, cells[2]), SquareText(row, cells[3]), "\n"]
  }

  /** The four cells of row `row` add that row's pieces. */
  lemma RowPieces(board: string, row: nat)
    requires row < 8 && 4 * row + 4 <= |board| <= 32
    ensures Pieces(board, 4 * row + 4) == Pieces(board, 4 * row) + RowPiecesOf(row, board[4 * row .. 4 * row + 4])
  {
    var n := 4 * row;
    var cells := board[n .. n + 4];
    assert cells[0] == board[n] && cells[1] == board[n + 1];
    assert cells[2] == board[n + 2] && cells[3] == board[n + 3];
    PiecesAt(board, n, row, 0, cells[0]);
    PiecesAt(board, n + 1, row, 1, cells[1]);
    PiecesAt(board, n + 2, row, 2, cells[2]);
    PiecesAt(board, n + 3, row, 3, cells[3]);
    AppendFour(Pieces(board, n), Pieces(board, n + 1), Pieces(board, n + 2),
               Pieces(board, n + 3), Pieces(board, n + 4),
               CellPieces(row, 0, cells[0]), CellPieces(row, 1, cells[1]),
               CellPieces(row, 2, cells[2]), CellPieces(row, 3, cells[3]));
    CellsOfRow(row, cells);
  }

  lemma AppendFour<T>(p0: seq<T>, p1: seq<T>, p2: seq<T>, p3: seq<T>, p4: seq<T>,
                      c0: seq<T>, c1: seq<T>, c2: seq<T>, c3: seq<T>)
    requires p1 == p0 + c0 && p2 == p1 + c1 && p3 == p2 + c2 && p4 == p3 + c3
    ensures p4 == p0 + (c0 + c1 + c2 + c3)
  {
  }

  /** The four cells of a row contribute that row's pieces. */
  lemma CellsOfRow(row: nat, cells: string)
    requires row < 8 && |cells| == 4
    ensures CellPieces(row, 0, cells[0]) + CellPieces(row, 1, cells[1])
          + CellPieces(row, 2, cells[2]) + CellPieces(row, 3, cells[3]) == RowPiecesOf(row, cells)
  {
  }

  /** Adding cell `n`, in column `col` of row `row`, adds that cell's pieces. */
  lemma PiecesAt(board: string, n: nat, row: nat, col: nat, c: char)
    requires row < 8 && col < 4 && n == 4 * row + col && n < |board| <= 32 && c == board[n]
    ensures Pieces(board, n + 1) == Pieces(board, n) + CellPieces(row, col, c)
  {
    RowAndColumn(row, col);
    assert n / 4 == row && n % 4 == col;
  }

  /** The three appends `formatBoard` makes for cell `i` add that cell's pieces. */
  lemma CellStep(board: string, i: nat, e: string, before: seq<string>, after: seq<string>)
    requires i < |board| <= 32 && e == Glyph(board[i]) && before == Pieces(board, i)
    requires after == before + (if (i + 1) % 4 == 1 then [RowLabels[i / 4]] else [])
      + [if i / 4 % 2 == 0 then LightSquare + e else e + LightSquare]
      + (if (i + 1) % 4 == 0 then ["\n"] else [])
    ensures after == Pieces(board, i + 1)
  {
    NextColumn(i);
  }

  /** Go's test `(i+1)%4 == 1` marks column 0 and `(i+1)%4 == 0` marks column 3. */
  lemma NextColumn(i: nat)
    ensures (i + 1) % 4 == 1 <==> i % 4 == 0
    ensures (i + 1) % 4 == 0 <==> i % 4 == 3
  {
  }

  lemma ConcatSix(a: string, b: string, c: string, d: string, e: string, f: string)
    ensures Concat([a, b, c, d, e, f]) == a + b + c + d + e + f
  {
    assert [a, b, c, d, e, f][..5] == [a, b, c, d, e];
    assert [a, b, c, d, e][..4] == [a, b, c, d];
    assert [a, b, c, d][..3] == [a, b, c];
    assert [a, b, c][..2] == [a, b];
    assert [a, b][..1] == [a];
    assert [a][..0] == [];
    assert Concat([a]) == a;
    assert Concat([a, b]) == a + b;
    assert Concat([a, b, c]) == a + b + c;
    assert Concat([a, b, c, d]) == a + b + c + d;
    assert Concat([a, b, c, d, e]) == a + b + c + d + e;
  }

  /** Writing out two lists of pieces one after the other. */
  lemma {:induction false} ConcatAppend(p: seq<string>, q: seq<string>)
    ensures Concat(p + q) == Concat(p) + Concat(q)
  {
    if q == [] {
      assert p + q == p;
    } else {
      assert (p + q)[..|p + q| - 1] == p + q[..|q| - 1];
      ConcatAppend(p, q[..|q| - 1]);
    }
  }

  /** Joining with the empty separator writes the pieces out one after the other. */
  lemma {:induction false} JoinEmpty(parts: seq<string>)
    ensures Join(parts, "") == Concat(parts)
  {
    if |parts| == 1 {
      assert parts[..0] == [];
    } else if |parts| > 1 {
      JoinEmpty(parts[1..]);
      ConcatAppend([parts[0]], parts[1..]);
      assert [parts[0]] + parts[1..] == parts;
      assert [parts[0]][..0] == [];
    }
  }

  // ---------------------------------------------------------------- messages

  const ErrorIcon: char := '\U{274C}'
  const SuccessIcon: char := '\U{2705}'

  /** `errorMessage`: a cross, two spaces, the title in bold, a line break, then the message. */
  function ErrorMessage(title: string, message: string): (r: string)
    ensures |r| == |title| + |message| + 8
    ensures r[1..5] == "  **" && r[5 + |title| .. 8 + |title|] == "**\n"
    ensures r[0] == ErrorIcon
    ensures r[5..5 + |title|] == title
    ensures r[|r| - |message|..] == message
  {
    [ErrorIcon] + "  **" + title + "**\n" + message
  }

  /** `successMessage`: a check mark, two spaces, the title in bold, a line break, then the message. */
  function SuccessMessage(title: string, message: string): (r: string)
    ensures |r| == |title| + |message| + 8
    ensures r[1..5] == "  **" && r[5 + |title| .. 8 + |title|] == "**\n"
    ensures r[0] == SuccessIcon
    ensures r[5..5 + |title|] == title
    ensures r[|r| - |message|..] == message
  {
    [SuccessIcon] + "  **" + title + "**\n" + message
  }

  /** An error is never mistaken for a success. */
  lemma ErrorIsNotSuccess(t1: string, m1: string, t2: string, m2: string)
    ensures ErrorMessage(t1, m1) != SuccessMessage(t2, m2)
  {
    assert ErrorMessage(t1, m1)[0] != SuccessMessage(t2, m2)[0];
  }
}
