# A verified model of bottyCheckers' rule engine

bottyCheckers is a Discord bot for an 8-row checkers variant. Only the 32 dark squares are
stored, four to a row. The game is a record holding three things:

- the selected square's index;
- the player to move (1 or 2);
- the board, a 32-character string over `0`–`4`. `0` is empty, `1` and `2` are the players'
  plain pieces, and `3` and `4` are their kings.

The bot turns the board round after every turn, so the player to move always advances north.

This project models the following parts of the bot:

- **`logic/`**
  - decoding squares from coordinates and from indices;
  - finding diagonal neighbours, with the edge guards and index offsets;
  - the move engine (`MoveAtDirection`, `GetAvailableMoves`);
  - applying a move (`MovePiece`) and passing the turn (`SwapTurn`);
  - the score.
- **`discord/`**
  - the pure helpers: storing a game as one line of text and reading it back;
  - the three reaction-list filters;
  - drawing the board as emoji;
  - the error and success message frames.

Modules follow the source files:

| module | file | models |
|---|---|---|
| `Games` | `games.dfy` | `logic/game.go` |
| `Squares` | `squares.dfy` | `logic/squares.go` |
| `Moves` | `moves.dfy` | `logic/moves.go` |
| `Score` | `score.dfy` | `logic/score.go` |
| `Utils` | `utils.dfy` | `discord/utils.go` |
| `Format` | `format.dfy` | `discord/format.go` |
| `Strconv`, `Strs` | `strconv.dfy`, `strs.dfy` | the parts of Go's `strconv` and `strings` that the engine calls |
| `Wrappers` | `wrappers.dfy` | Go's `(value, error)` returns |

Two further modelling choices:

- **Go `uint8`.** It is the subset type `Byte`. `ParseGame` narrows parsed numbers with `% 256`, as `uint8(...)` does.
- **In-place updates.** `MovePiece` and `SwapTurn` work on a local character array, as the source works on its rune slice. The value written back through the Go pointer becomes the method's result.

Two facts about the code that the model relies on:

- **Edge guards.** `SquareAtDirection` blocks four moves:
  - north from row 0;
  - south from row 7;
  - east from column 3 on even rows;
  - west from column 0 on odd rows.

  `Squares.NeighbourIndex` proves that these four guards fire exactly at the board's edges.
- **Row computation.** `math.Ceil(float64(i / 4))` in `formatBoard` is applied to an integer quotient, so it equals `i / 4` and is modelled that way.

## Model

| member | source | states |
|---|---|---|
| Games.Valid | logic/game.go:3-7 | a valid game has its selection inside the 32-cell board, and every cell decodes to a piece value 0..4 |
| Games.StartGameValid | discord/invites.go:115-119 | the freshly created game has turn 2, nothing selected, and a full board of known symbols |
| Games.RowAndColumn | logic/squares.go:52-53 | index `4*row + column` has quotient `row` and remainder `column` by 4 |
| Strconv.ParseUint | discord/utils.go:85-96 | a successful parse is a non-empty digit string whose value fits in 64 bits, and conversely every such string (leading zeros allowed) parses to its value; in particular every string of at most 19 digits parses; a spelling without leading zeros is the one `FormatUint` writes |
| Strconv.FormatCanonical | discord/utils.go:105-107 | a digit string without leading zeros is exactly `FormatUint` of its value |
| Strconv.DigitsFit | discord/utils.go:85 | at most 19 digits always fit in a uint64 |
| Strconv.FormatUint | discord/utils.go:105-107 | the decimal text is non-empty, digits only, and has no space; it has no leading zero and denotes the number |
| Strconv.ParseFormat | discord/utils.go:85-96 | parsing the formatted text of any uint64 gives the number back |
| Strconv.ParseOneChar | logic/squares.go:54-58 | parsing a one-character string succeeds exactly on a digit, giving its value |
| Strs.Count | logic/score.go:10 | the count is at most the length, and is zero exactly when the character is absent |
| Strs.Split | discord/utils.go:79 | splitting gives one more piece than there are separators, and no piece holds the separator |
| Strs.Join | discord/utils.go:110 | joining nothing gives the empty string, and the first part opens the joined text |
| Strs.SplitJoin | discord/utils.go:79-110 | splitting the joined pieces gives them back when no piece holds the separator |
| Squares.PieceAt | logic/squares.go:54-64 | a cell decodes exactly when it is a digit, to that digit's value |
| Squares.SquareAtCoords | logic/squares.go:34-48 | for 1-based coordinates, gives `index = 4(y-1)+(x-1)`, the 0-based coordinates and the digit there, or "Error parsing piece" exactly on a non-digit |
| Squares.SquareAtIndex | logic/squares.go:51-67 | gives column `i mod 4`, row `i div 4` and the digit at `i`, or "Error parsing piece" exactly on a non-digit |
| Squares.IndexAgreesWithCoords | logic/squares.go:34-67 | decoding by index agrees with decoding by the corresponding 1-based coordinates |
| Squares.IsEmpty | logic/squares.go:70-72 | empty exactly when the piece has no owner; on board symbols, exactly the symbol `0` |
| Squares.IsKing | logic/squares.go:84-86 | on board symbols, a king is exactly `3` or `4`, and it has the owner of the plain piece two below it |
| Squares.Player | logic/squares.go:75-81 | pieces 1 and 3 belong to player 1, and 2 and 4 to player 2; this matches the board symbol's owner |
| Squares.PiecePredicates | logic/squares.go:70-86 | empty exactly when owned by nobody; king exactly for 3 and 4; a king has its plain piece's owner |
| Squares.NeighbourIndex | logic/squares.go:91-107 | the four edge guards fire exactly when the diagonal neighbour is off the 8x8 board; otherwise offset (minus 1 on odd rows) lands on that neighbour, in 0..31, one row up or down |
| Squares.NeighbourAt | logic/squares.go:91-107 | the neighbour index is absent exactly off the board; otherwise it is the neighbour's index, row and column |
| Squares.SquareAtDirection | logic/squares.go:89-108 | "Out of bounds" exactly when the neighbour is off the board; otherwise the neighbour square decoded by index, one row north or south and one column east or west |
| Squares.MoveAtDirection | logic/squares.go:111-127 | an impossible move is the zero move, and a possible move goes north unless the piece is a king |
| Squares.MoveKinds | logic/squares.go:115-126 | a possible move is either a step onto the empty neighbour (not in jump-only mode, nothing jumped) or a capture over an opposing neighbour onto the empty square two diagonals away |
| Squares.TwoSteps | logic/squares.go:120 | two steps from a square are one step from its neighbour, onto the same cell |
| Squares.MoveFindsStep | logic/squares.go:115-118 | every legal step onto an empty neighbour is offered when captures are not forced |
| Squares.NeighbourDecodes | logic/squares.go:97-103 | a digit cell next to the square decodes to that digit |
| Squares.OwnerOfCell | logic/squares.go:75-81 | a decoded piece is owned by the player its board symbol names |
| Squares.MoveFindsCapture | logic/squares.go:119-122 | every legal capture (opposing piece next, empty square beyond) is offered, with or without jump-only mode |
| Squares.DirectionMoves | logic/squares.go:145-153 | the list has one move per direction considered |
| Squares.DirectionMovesAt | logic/squares.go:147-153 | slot k of the list is the move in direction k, in the order NW, NE, SW, SE |
| Squares.AnyPossibleSnoc | logic/squares.go:146-151 | after appending a move, the list holds a possible move exactly when it did before or the new move is possible |
| Squares.GetAvailableMoves | logic/squares.go:130-160 | "Invalid coordinates", "Cannot select blank space", "Cannot select other players piece" and "Piece has nowhere to move" in that order of checks; otherwise the four moves in direction order, at least one possible |
| Squares.JumpOnlyOffersCaptures | logic/squares.go:117-121 | in jump-only mode every possible move is a capture |
| Squares.StartingMoveFromIndex20 | logic/squares.go:111-127 | from the starting layout, the piece on index 20 can only step north-east onto index 16 |
| Moves.PlacedPiece | logic/moves.go:18-24 | the placed symbol is the piece's digit, plus 2 when a plain piece lands on row 0 |
| Moves.MovedBoard | logic/moves.go:16-33 | a move keeps the board's length |
| Moves.MovedCells | logic/moves.go:16-33 | origin and jumped square become `0`, destination holds the placed symbol, every other cell is unchanged |
| Moves.MovePiece | logic/moves.go:16-33 | the rune-buffer update produces exactly the moved board |
| Moves.MovePreservesValidBoard | logic/moves.go:16-33 | a move of a piece 1..4 keeps a board of 32 known symbols valid |
| Moves.Reversed | logic/moves.go:50-54 | reversing keeps the length |
| Moves.Swapped | logic/moves.go:36-57 | the selection is always cleared; the turn is passed exactly when it is 1 or 2, and then the other player moves on a board of the same length; otherwise the error is "Invalid turn" and turn and board are untouched |
| Moves.ReversedAt | logic/moves.go:50-54 | cell k of the reverse is cell `len-1-k` |
| Moves.ReversedOf | logic/moves.go:50-54 | a string mirroring another cell by cell is its reverse |
| Moves.ReversedTwice | logic/moves.go:50-54 | reversing twice gives the string back |
| Moves.SwapTurnEffect | logic/moves.go:36-57 | for turn 1 or 2: no error, turn `3-turn`, selection 0, cell i is old cell `len-1-i`; otherwise "Invalid turn", with only the selection cleared |
| Moves.SwapTwice | logic/moves.go:41-54 | passing the turn twice restores turn and board |
| Moves.SwapPreservesValid | logic/moves.go:36-57 | passing the turn keeps a valid game valid |
| Moves.ReverseRunes | logic/moves.go:50-54 | the two-pointer swap loop leaves the buffer reversed |
| Moves.SwapTurn | logic/moves.go:36-57 | the step-by-step update produces the game and error that `Swapped` describes |
| Score.Owned | logic/score.go:10 | a player owns at most as many pieces as the board has cells, and none exactly when no cell holds one of theirs |
| Score.OwnedIsCount | logic/score.go:10 | a player's pieces are the count of their plain symbol plus the count of their king symbol |
| Score.GetScore | logic/score.go:8-11 | the first component is 12 minus player 2's pieces, the second 12 minus player 1's pieces |
| Score.OwnedUpdate | logic/moves.go:20-29 | overwriting one cell changes each player's piece count by at most the old and new symbol |
| Score.OwnedReversed | logic/moves.go:50-54 | the reversed board holds as many pieces of each player |
| Score.OwnedSnoc | logic/score.go:10 | appending a symbol adds one piece to its owner only |
| Score.StartScore | logic/score.go:10 | the starting board scores (0, 0) |
| Score.RunsScore | logic/score.go:10 | a board of runs of 1s, 0s and 2s scores 12 minus each player's run length |
| Score.Run | discord/invites.go:117 | a run has the given length and holds only the given symbol |
| Score.StartBoardRuns | discord/invites.go:117 | the starting board is twelve `1`, eight `0`, twelve `2` |
| Score.OwnedRun | logic/score.go:10 | a run counts fully for its symbol's owner and not at all for the other player |
| Score.OwnedAppend | logic/score.go:10 | piece counts add up over concatenation |
| Score.OwnedRuns | logic/score.go:10 | each player's count on a board of runs is their run length |
| Score.SwapKeepsScore | logic/moves.go:50-54 | passing the turn leaves both scores unchanged |
| Score.PlacedOwner | logic/moves.go:18-24 | the placed symbol, promoted or not, belongs to the mover |
| Score.MovedOwned | logic/moves.go:16-33 | a move keeps every piece count, except that the jumped piece's owner loses one |
| Score.ScoreAfterMove | logic/score.go:10 | a step, promoting or not, keeps the score; a capture raises the mover's score by exactly one |
| Score.ScoreChange | logic/score.go:10 | losing one piece raises the other player's score by one |
| Score.MoveScores | logic/squares.go:111-127 | every move the engine offers to the player to move scores as `ScoreAfterMove` says |
| Score.CellsOfMove | logic/squares.go:115-122 | the mover's and jumped piece's symbols name their owners, and the squares of a move are distinct |
| Utils.BotReactions | discord/utils.go:40-50 | the bot's reactions are exactly the reactions with `me` set, no more of them than there were reactions |
| Utils.BotReactionsAppend | discord/utils.go:43-47 | filtering distributes over concatenation, so order is kept |
| Utils.BotReactionsIdempotent | discord/utils.go:40-50 | filtering twice is filtering once |
| Utils.GetBotReactions | discord/utils.go:40-50 | the append loop computes the filter |
| Utils.IsBotReaction | discord/utils.go:53-61 | true exactly when some reaction has the emoji's name and `me`, that is, when the name is among the bot's reactions |
| Utils.HasOtherReactionsBesides | discord/utils.go:64-74 | true exactly when some reaction other than the allowed one has a count above 1 |
| Utils.StringifyGame | discord/utils.go:102-111 | splitting the text on spaces gives id, decimal turn, board, decimal selection when id and board have no space |
| Utils.ParseGame | discord/utils.go:77-99 | "Invalid input" exactly when there are not 4 fields; "Could not parse turn" before "Could not parse selected"; otherwise the id and board verbatim and the numbers mod 256 |
| Utils.ParseStringify | discord/utils.go:77-111 | parsing the stored text gives back the id and the game when neither holds a space |
| Utils.StringifyParse | discord/utils.go:77-111 | storing a parsed game gives the text back when its numbers are written canonically |
| Utils.JoinSplit | discord/utils.go:79 | joining the pieces of a split with the separator gives the string back |
| Utils.JoinCons | discord/utils.go:110 | prefixing the first piece prefixes the joined text |
| Format.Glyph | discord/format.go:33-52 | a symbol has a glyph exactly when it is `0`-`4` or a direction marker; marker k shows arrow k |
| Format.SquareText | discord/format.go:54-59 | a square is its glyph plus one light square, the light square first on even rows and last on odd rows |
| Format.CellPieces | discord/format.go:27-64 | a cell contributes its square, preceded by the row label in column 0 and followed by a line break in column 3 |
| Format.Pieces | discord/format.go:22-65 | the first n cells give at least n pieces, at least one per cell |
| Format.PiecesLength | discord/format.go:22-65 | the first n cells give exactly n squares, one label per started row and one line break per finished row |
| Format.GlyphInjective | discord/format.go:33-52 | different known symbols have different glyphs |
| Format.FormatBoard | discord/format.go:19-70 | the loop's output is the cells' pieces written out, then the footer |
| Format.FullBoard | discord/format.go:19-65 | a 32-cell board is drawn as eight rows, each a row label, four squares and a line break |
| Format.PiecesRows | discord/format.go:22-65 | the first k rows' cells write out the first k rows |
| Format.RowPieces | discord/format.go:22-65 | the four cells of a row add its label, four squares and a line break |
| Format.CellsOfRow | discord/format.go:28-64 | the four cells' pieces of a row are that row's pieces |
| Format.RowConcat | discord/format.go:69 | writing out a row's pieces gives the row text |
| Format.PiecesAt | discord/format.go:24-64 | cell `4*row+col` adds its row label when col is 0, its square, and a line break when col is 3 |
| Format.CellStep | discord/format.go:24-64 | the three appends for cell i add that cell's pieces |
| Format.NextColumn | discord/format.go:28 | `(i+1) mod 4 = 1` marks column 0 and `(i+1) mod 4 = 0` marks column 3 |
| Format.JoinEmpty | discord/format.go:69 | joining with the empty separator writes the pieces one after another |
| Format.JoinLast | discord/format.go:68-69 | the footer is written last |
| Format.ErrorMessage | discord/format.go:78-80 | the text is the cross, two spaces and `**`, the title, `**` and a line break, then the message; the length and these positions determine it |
| Format.SuccessMessage | discord/format.go:83-85 | the same frame with the check mark: icon, two spaces and `**`, the title, `**` and a line break, then the message |
| Format.ErrorIsNotSuccess | discord/format.go:78-85 | no error message equals a success message |

## Left out

- Everything that talks to Discord is not part of this model. That covers `main.go`, `discord/handlers.go`, `discord/invites.go`, `discord/select.go` and `discord/moves.go`, plus `gameEmbed` and `formatUser` in `discord/format.go`. These files do network I/O through `discordgo`.
- The colour constants of `discord/utils.go` are plain data and are not modelled.
- `isBotReaction` takes a session argument that it never uses, so the model drops it. A reaction is modelled as a record of emoji name, count and `me`.
- Pointer write-back is not modelled. `MovePiece` and `SwapTurn` return the new board and the new game instead of writing through `*string` and `*Game`, so aliasing is not modelled.
- Boards are treated as one character per cell. Go indexes bytes in `SquareAtIndex`, runes in `MovePiece` and `SwapTurn`, and byte offsets in `formatBoard`'s range loop. These coincide only for ASCII boards, and the model does not cover boards holding multi-byte characters.
- SquareAtCoords: takes 1 ≤ x ≤ 4 and 1 ≤ y ≤ 8 as a precondition. It does not model the `uint8` wrap-around and index panic for other values. It also requires the computed index `(y - 1) * 4 + (x - 1)` to lie inside the board; boards too short for it, where Go panics, are excluded and not modelled.
- MovePiece: requires the origin, destination and (for a jump) jumped indices to lie inside the board. Go panics on an index outside the rune slice (logic/moves.go:20-29); that panic is not modelled. `Moves.MovedBoard` carries the same precondition.
- SquareAtIndex: requires the index to be inside the board, where Go would panic.
- SquareAtDirection: requires the square's coordinates to agree with its index, every direction to be one of the four constants, and a board of at least 32 cells. Every square the engine builds satisfies the first. Boards under 32 cells are excluded and not modelled; on those Go panics only when the computed index reaches the board's length.
- MoveAtDirection: same preconditions as `SquareAtDirection`.
- GetAvailableMoves: requires the square's index to agree with its coordinates and a board of at least 32 cells; shorter boards are excluded and not modelled. The squares the engine passes come from `SquareAtIndex` and `SquareAtCoords`, which guarantee the first. The `s.X < 0` and `s.Y < 0` tests are dropped because they are always false on unsigned values.
- FormatBoard: requires at most 32 cells. A longer board makes Go index past the eight row labels and panic.
- Direction: the `"north"`/`"south"`/`"east"`/`"west"` string fields are enumerations in the model.
- `strconv.ParseUint` and `FormatUint` are modelled for base 10 and a 64-bit maximum only, which is how the engine calls them. Their error values are modelled only as the engine's own messages.
- `Selected` uses 0 both for "no selection" and for square 0. The model keeps the same overloading and proves nothing that would tell the two apart.
- Concurrency between Discord event handlers is not modelled.
