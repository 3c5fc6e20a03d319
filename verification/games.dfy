/** The game record: the selected square, whose turn it is and the board. */
module Games {
  import opened Strconv

  /** A Go `uint8`. */
  type Byte = x: int | 0 <= x < 256

  /** Number of dark squares: 8 rows of 4. */
  const BoardSize: nat := 32

  /** A game as the engine passes it around. `selected` is a board index, with 0 also used
      for "nothing selected"; `turn` is the owner value (1 or 2) of the player to move;
      `board` holds one symbol per dark square, row by row. */
  datatype Game = Game(selected: Byte, turn: Byte, board: string)

  /** The layout of a freshly accepted invite: player 1 on indices 0-11, player 2 on 20-31. */
  const StartBoard: string := "11111111111100000000222222222222"

  /** A new game starts with nothing selected and player 2 to move. */
  const StartGame: Game := Game(0, 2, StartBoard)

  /** Index `4 * row + column` is in row `row` and column `column`: the board is stored row
      by row, four dark squares to a row. */
  lemma RowAndColumn(row: int, column: int)
    requires 0 <= column < 4
    ensures (4 * row + column) / 4 == row && (4 * row + column) % 4 == column
  {
  }

  /** Board symbols: empty, plain pieces of players 1 and 2, kings of players 1 and 2. */
  predicate IsCell(c: char) { '0' <= c <= '4' }

  predicate ValidBoard(b: string)
  {
    |b| == BoardSize && forall i | 0 <= i < |b| :: IsCell(b[i])
  }

  /** What the rest of the engine relies on: a known player to move, a full board of
      known symbols, and a selection that indexes that board. */
  predicate Valid(g: Game)
    ensures Valid(g) ==> 0 <= g.selected < BoardSize
    // every cell decodes to a piece value the square predicates know
    ensures Valid(g) ==> forall i | 0 <= i < |g.board| :: IsDigit(g.board[i]) && DigitValue(g.board[i]) <= 4
  {
    (g.turn == 1 || g.turn == 2) && ValidBoard(g.board) && g.selected < |g.board|
  }

  /** The starting game satisfies the record's invariant. */
  lemma StartGameValid()
    ensures Valid(StartGame)
  {
  }
}
