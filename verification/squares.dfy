/** Squares, directions and the move engine of `logic/squares.go`. */
module Squares {
  import opened Wrappers
  import opened Strconv
  import opened Games

  /** A decoded view of one dark square: column, row, index and the piece on it. */
  datatype Square = Square(x: Byte, y: Byte, index: Byte, piece: Byte)

  /** Go's zero `Square{}`; also the "nothing jumped" marker of a move. */
  const Zero: Square := Square(0, 0, 0, 0)

  /** The result of trying one direction. Declared in `logic/moves.go`; placed here because
      the move engine builds it. `jumped` is `Zero` for a simple step. */
  datatype Move = Move(possible: bool, s: Square, jumped: Square)

  /** Go's zero `Move{}`: the "not possible" sentinel. */
  const NoMove: Move := Move(false, Zero, Zero)

  datatype Vertical = North | South
  datatype Horizontal = East | West

  /** A diagonal direction; `offset` is the index offset used on an even row. */
  datatype Direction = Direction(y: Vertical, x: Horizontal, offset: int)

  const NorthWest: Direction := Direction(North, West, -4)
  const NorthEast: Direction := Direction(North, East, -3)
  const SouthWest: Direction := Direction(South, West, 4)
  const SouthEast: Direction := Direction(South, East, 5)

  /** The fixed order in which moves are listed. */
  const Directions: seq<Direction> := [NorthWest, NorthEast, SouthWest, SouthEast]

  /** A square whose coordinates are inside the 4 x 8 grid and agree with its index. */
  predicate OnBoard(s: Square)
  {
    s.x < 4 && s.y < 8 && s.index == 4 * s.y + s.x
  }

  // Geometry on the full 8 x 8 board, independent of the index offsets: the dark square
  // in column x of row y sits in full-board column 2x + 1 on even rows and 2x on odd rows.

  function Column(s: Square): int
  {
    2 * s.x + (if s.y % 2 == 0 then 1 else 0)
  }

  function RowStep(d: Direction): int { if d.y == North then -1 else 1 }

  function ColumnStep(d: Direction): int { if d.x == East then 1 else -1 }

  predicate InGrid(row: int, col: int) { 0 <= row < 8 && 0 <= col < 8 }

  /** The index of the dark square at a full-board row and column. */
  function CellIndex(row: int, col: int): int { 4 * row + col / 2 }

  /** The square `k` diagonal steps from `s` in direction `d` is on the board. */
  predicate Reaches(s: Square, d: Direction, k: nat)
  {
    InGrid(s.y + Steps(k, RowStep(d)), Column(s) + Steps(k, ColumnStep(d)))
  }

  /** `k` unit steps in the direction of `unit` (which is 1 or -1). */
  function Steps(k: nat, unit: int): int { if unit < 0 then -(k as int) else k }

  /** The board symbol `k` diagonal steps from `s` in direction `d`. */
  function CellAt(s: Square, d: Direction, k: nat, g: Game): char
    requires Reaches(s, d, k) && |g.board| >= BoardSize
  {
    g.board[CellIndex(s.y + Steps(k, RowStep(d)), Column(s) + Steps(k, ColumnStep(d)))]
  }

  /** The owner of a board symbol, 0 for the empty square. */
  function CellOwner(c: char): nat
  {
    if c == '1' || c == '3' then 1 else if c == '2' || c == '4' then 2 else 0
  }

  /** Decodes the symbol at `index`: `strconv.ParseUint` of that one character, narrowed to uint8. */
  function PieceAt(index: nat, g: Game): (r: Option<Byte>)
    requires index < |g.board|
    ensures r.Some? <==> IsDigit(g.board[index])
    ensures r.Some? ==> r.value == DigitValue(g.board[index])
  {
    ParseOneChar(g.board[index]);
    match ParseUint([g.board[index]])
    case None => None
    case Some(p) => Some(p % 256)
  }

  /** The square at 1-based coordinates. */
  function SquareAtCoords(x: Byte, y: Byte, g: Game): (r: Result<Square>)
    requires 1 <= x <= 4 && 1 <= y <= 8
    requires (y - 1) * 4 + (x - 1) < |g.board|
    ensures r.Ok? <==> IsDigit(g.board[(y - 1) * 4 + (x - 1)])
    ensures r.Err? ==> r.error == "Error parsing piece"
    ensures r.Ok? ==> OnBoard(r.value) && r.value.x == x - 1 && r.value.y == y - 1
    ensures r.Ok? ==> r.value.piece == DigitValue(g.board[r.value.index])
  {
    var index := (y - 1) * 4 + (x - 1);
    match PieceAt(index, g)
    case None => Err("Error parsing piece")
    case Some(piece) => Ok(Square(x - 1, y - 1, index, piece))
  }

  /** The square at a board index; the row is the integer quotient by 4. */
  function SquareAtIndex(index: Byte, g: Game): (r: Result<Square>)
    requires index < |g.board|
    ensures r.Ok? <==> IsDigit(g.board[index])
    ensures r.Err? ==> r.error == "Error parsing piece"
    ensures r.Ok? ==> r.value.index == index && r.value.x < 4 && 4 * r.value.y + r.value.x == index
    ensures r.Ok? ==> r.value.piece == DigitValue(g.board[index])
  {
    var x := index % 4;
    var y := index / 4;
    match PieceAt(index, g)
    case None => Err("Error parsing piece")
    case Some(piece) => Ok(Square(x, y, index, piece))
  }

  /** Both decoders give the same square for the same place on the board. */
  lemma IndexAgreesWithCoords(i: Byte, g: Game)
    requires i < BoardSize && i < |g.board|
    ensures SquareAtIndex(i, g) == SquareAtCoords(i % 4 + 1, i / 4 + 1, g)
    ensures SquareAtIndex(i, g).Ok? ==> OnBoard(SquareAtIndex(i, g).value)
  {
  }

  /** Nothing stands on the square: its piece has no owner, and on the board's own symbols
      it is the one written `0`. */
  predicate IsEmpty(s: Square)
    ensures IsEmpty(s) <==> Player(s) == 0
    ensures s.piece <= 4 ==> (IsEmpty(s) <==> CellOwner(DigitChar(s.piece)) == 0)
  {
    s.piece == 0
  }

  /** The piece is a king: on the board's own symbols, `3` or `4`, owned by the same player
      as the plain piece two below it. */
  predicate IsKing(s: Square)
    ensures s.piece <= 4 ==> (IsKing(s) <==> DigitChar(s.piece) == '3' || DigitChar(s.piece) == '4')
    ensures IsKing(s) && s.piece <= 4 ==> Player(s) == Player(s.(piece := s.piece - 2))
  {
    s.piece > 2
  }

  /** The owner of the piece: a king's value is its owner's plain value plus 2. */
  function Player(s: Square): (p: Byte)
    ensures 1 <= s.piece <= 4 ==> p == 2 - s.piece % 2
    ensures s.piece <= 4 ==> p == CellOwner(DigitChar(s.piece))
  {
    if s.piece > 2 then s.piece - 2 else s.piece
  }

  /** On the board's own symbols: empty is `0`, kings are `3` and `4`, and a king belongs to
      the same player as the plain piece two below it. */
  lemma PiecePredicates(s: Square)
    requires s.piece <= 4
    ensures IsEmpty(s) <==> Player(s) == 0
    ensures IsKing(s) <==> s.piece == 3 || s.piece == 4
    ensures !IsEmpty(s) ==> Player(s) == 1 || Player(s) == 2
    ensures IsKing(s) ==> Player(s) == Player(s.(piece := s.piece - 2))
  {
  }

  /** The edge guards and index offsets of `SquareAtDirection` agree with the full-board
      geometry: the guards fire exactly when the diagonal neighbour is off the board, and
      otherwise the offset lands on that neighbour. */
  lemma NeighbourIndex(s: Square, d: Direction)
    requires OnBoard(s) && d in Directions
    ensures Reaches(s, d, 1) <==>
      !((s.y == 0 && d.y == North) || (s.y == 7 && d.y == South)
        || (s.y % 2 == 0 && s.x == 3 && d.x == East) || (s.y % 2 == 1 && s.x == 0 && d.x == West))
    ensures Reaches(s, d, 1) ==>
      var t := s.index + d.offset - (if s.y % 2 == 0 then 0 else 1);
      && 0 <= t < BoardSize
      && t / 4 == s.y + RowStep(d)
      && 2 * (t % 4) + (if (t / 4) % 2 == 0 then 1 else 0) == Column(s) + ColumnStep(d)
      && t == CellIndex(s.y + RowStep(d), Column(s) + ColumnStep(d))
  {
    var y' := s.y + RowStep(d);
    var c' := Column(s) + ColumnStep(d);
    if Reaches(s, d, 1) {
      var x' := c' / 2;
      if s.y % 2 == 0 {
        assert c' == 2 * s.x + 1 + ColumnStep(d);
        assert x' == if d.x == East then s.x + 1 else s.x;
      } else {
        assert c' == 2 * s.x + ColumnStep(d);
        assert x' == if d.x == East then s.x else s.x - 1;
      }
      assert s.index + d.offset - (if s.y % 2 == 0 then 0 else 1) == 4 * y' + x';
      RowAndColumn(y', x');
    }
  }

  /** The index of the diagonal neighbour, computed as `SquareAtDirection` does: the edge
      guards first, then the direction's offset, one less on odd rows. */
  function NeighbourAt(s: Square, d: Direction): (r: Option<Byte>)
    requires OnBoard(s) && d in Directions
    ensures r.None? <==> !Reaches(s, d, 1)
    ensures r.Some? ==>
      && r.value < BoardSize
      && r.value == CellIndex(s.y + RowStep(d), Column(s) + ColumnStep(d))
      && r.value / 4 == s.y + RowStep(d)
      && 2 * (r.value % 4) + (if (r.value / 4) % 2 == 0 then 1 else 0) == Column(s) + ColumnStep(d)
  {
    NeighbourIndex(s, d);
    if (s.y == 0 && d.y == North) || (s.y == 7 && d.y == South) then
      None
    else if s.y % 2 == 0 then
      if s.x != 3 || d.x == West then Some(s.index + d.offset) else None
    else
      if s.x != 0 || d.x == East then Some(s.index + d.offset - 1) else None
  }

  /** The neighbouring square in a direction, or "Out of bounds" at the edge. */
  function SquareAtDirection(s: Square, d: Direction, g: Game): (r: Result<Square>)
    requires OnBoard(s) && d in Directions && |g.board| >= BoardSize
    ensures r == Err("Out of bounds") <==> !Reaches(s, d, 1)
    ensures Reaches(s, d, 1) ==> r == SquareAtIndex(CellIndex(s.y + RowStep(d), Column(s) + ColumnStep(d)), g)
    ensures r.Ok? ==> OnBoard(r.value) && r.value.y == s.y + RowStep(d) && Column(r.value) == Column(s) + ColumnStep(d)
  {
    match NeighbourAt(s, d)
    case None => Err("Out of bounds")
    case Some(t) => SquareAtIndex(t, g)
  }

  /** One direction's move: a simple step onto an empty neighbour, a capture over an
      opposing neighbour onto the empty square beyond, or `NoMove`. Plain pieces only go north.
      What the possible moves look like is stated by `MoveKinds`. */
  function MoveAtDirection(s: Square, d: Direction, g: Game, jumpOnly: bool): (m: Move)
    requires OnBoard(s) && d in Directions && |g.board| >= BoardSize
    ensures !m.possible ==> m == NoMove
    ensures m.possible ==> d.y == North || IsKing(s)
  {
    var next := SquareAtDirection(s, d, g);
    if next.Ok? && (d.y == North || IsKing(s)) then
      if IsEmpty(next.value) && !jumpOnly then
        Move(true, next.value, Zero)
      else if !IsEmpty(next.value) && Player(next.value) != g.turn then
        var jump := SquareAtDirection(next.value, d, g);
        if jump.Ok? && IsEmpty(jump.value) then Move(true, jump.value, next.value) else NoMove
      else
        NoMove
    else
      NoMove
  }

  /** A possible move is one of two kinds, told apart by `jumped`: a simple step one diagonal
      onto an empty square, or a capture over an opposing piece one diagonal away onto the
      empty square two diagonals away. */
  lemma MoveKinds(s: Square, d: Direction, g: Game, jumpOnly: bool)
    requires OnBoard(s) && d in Directions && |g.board| >= BoardSize
    ensures var m := MoveAtDirection(s, d, g, jumpOnly);
      m.possible ==> OnBoard(m.s) && IsEmpty(m.s) && g.board[m.s.index] == '0'
    // `Zero` in `jumped` marks exactly the one-step moves
    ensures var m := MoveAtDirection(s, d, g, jumpOnly);
      m.possible ==> (m.jumped == Zero <==> m.s.y == s.y + RowStep(d))
    ensures var m := MoveAtDirection(s, d, g, jumpOnly);
      m.possible && m.jumped == Zero ==>
        && !jumpOnly
        && m.s.y == s.y + RowStep(d) && Column(m.s) == Column(s) + ColumnStep(d)
    ensures var m := MoveAtDirection(s, d, g, jumpOnly);
      m.possible && m.jumped != Zero ==>
        && OnBoard(m.jumped)
        && IsDigit(g.board[m.jumped.index]) && m.jumped.piece == DigitValue(g.board[m.jumped.index])
        && !IsEmpty(m.jumped) && Player(m.jumped) != g.turn
        && m.jumped.y == s.y + RowStep(d) && Column(m.jumped) == Column(s) + ColumnStep(d)
        && m.s.y == s.y + 2 * RowStep(d) && Column(m.s) == Column(s) + 2 * ColumnStep(d)
  {
    var next := SquareAtDirection(s, d, g);
    if next.Ok? && !IsEmpty(next.value) {
      var jump := SquareAtDirection(next.value, d, g);
      assert next.value != Zero;
    }
  }

  /** Two steps in one direction are one step from the neighbour. */
  lemma TwoSteps(s: Square, n: Square, d: Direction, g: Game)
    requires OnBoard(s) && |g.board| >= BoardSize
    requires n.y == s.y + RowStep(d) && Column(n) == Column(s) + ColumnStep(d)
    ensures Reaches(s, d, 2) <==> Reaches(s, d, 1) && Reaches(n, d, 1)
    ensures Reaches(s, d, 2) ==> CellAt(n, d, 1, g) == CellAt(s, d, 2, g)
  {
  }

  /** Every simple step the rules allow is offered: a plain piece going north, or a king,
      next to an empty square, when captures are not the only moves wanted. */
  lemma MoveFindsStep(s: Square, d: Direction, g: Game)
    requires OnBoard(s) && d in Directions && |g.board| >= BoardSize
    requires d.y == North || IsKing(s)
    requires Reaches(s, d, 1) && CellAt(s, d, 1, g) == '0'
    ensures MoveAtDirection(s, d, g, false).possible
    ensures MoveAtDirection(s, d, g, false).jumped == Zero
  {
    var next := SquareAtDirection(s, d, g);
    assert next.Ok?;
    assert IsEmpty(next.value);
  }

  /** A neighbour whose symbol is a digit decodes to a square holding that digit's value. */
  lemma NeighbourDecodes(s: Square, d: Direction, g: Game)
    requires OnBoard(s) && d in Directions && |g.board| >= BoardSize
    requires Reaches(s, d, 1) && IsDigit(CellAt(s, d, 1, g))
    ensures SquareAtDirection(s, d, g).Ok?
    ensures SquareAtDirection(s, d, g).value.piece == DigitValue(CellAt(s, d, 1, g))
  {
    var t := CellIndex(s.y + RowStep(d), Column(s) + ColumnStep(d));
    assert CellAt(s, d, 1, g) == g.board[t];
  }

  /** A decoded piece belongs to the owner its board symbol names. */
  lemma OwnerOfCell(n: Square, c: char)
    requires IsDigit(c) && n.piece == DigitValue(c)
    ensures CellOwner(c) != 0 ==> !IsEmpty(n) && Player(n) == CellOwner(c)
  {
  }

  /** Every capture the rules allow is offered, whether or not only captures are wanted:
      an opposing piece one step away and an empty square two steps away. */
  lemma MoveFindsCapture(s: Square, d: Direction, g: Game, jumpOnly: bool)
    requires OnBoard(s) && d in Directions && |g.board| >= BoardSize
    requires d.y == North || IsKing(s)
    requires Reaches(s, d, 2)
    requires CellOwner(CellAt(s, d, 1, g)) != 0 && CellOwner(CellAt(s, d, 1, g)) != g.turn
    requires CellAt(s, d, 2, g) == '0'
    ensures MoveAtDirection(s, d, g, jumpOnly).possible
    ensures MoveAtDirection(s, d, g, jumpOnly).jumped != Zero
  {
    assert Reaches(s, d, 1);
    NeighbourDecodes(s, d, g);
    var n := SquareAtDirection(s, d, g).value;
    OwnerOfCell(n, CellAt(s, d, 1, g));
    TwoSteps(s, n, d, g);
    NeighbourDecodes(n, d, g);
    assert IsEmpty(SquareAtDirection(n, d, g).value);
    assert n != Zero;
  }

  /** The moves in the first `n` directions of `Directions`, in that order. */
  function DirectionMoves(s: Square, g: Game, jumpOnly: bool, n: nat): (r: seq<Move>)
    requires OnBoard(s) && n <= |Directions| && |g.board| >= BoardSize
    ensures |r| == n
  {
    if n == 0 then [] else DirectionMoves(s, g, jumpOnly, n - 1) + [MoveAtDirection(s, Directions[n - 1], g, jumpOnly)]
  }

  /** Slot `k` of the listed moves is the move in the `k`-th direction: north-west,
      north-east, south-west, south-east. */
  lemma {:induction false} DirectionMovesAt(s: Square, g: Game, jumpOnly: bool, n: nat, k: nat)
    requires OnBoard(s) && n <= |Directions| && |g.board| >= BoardSize && k < n
    ensures DirectionMoves(s, g, jumpOnly, n)[k] == MoveAtDirection(s, Directions[k], g, jumpOnly)
  {
    if k < n - 1 {
      DirectionMovesAt(s, g, jumpOnly, n - 1, k);
    }
  }

  /** Some move of the list can be made. */
  predicate AnyPossible(moves: seq<Move>)
  {
    exists k | 0 <= k < |moves| :: moves[k].possible
  }

  /** Adding a move to the list adds a possible move exactly when the new move is possible. */
  lemma AnyPossibleSnoc(moves: seq<Move>, m: Move)
    ensures AnyPossible(moves + [m]) <==> AnyPossible(moves) || m.possible
  {
    var all := moves + [m];
    assert all[|moves|] == m;
    assert forall k | 0 <= k < |moves| :: all[k] == moves[k];
  }

  /** All four directions' moves for the selected square, in the order of `Directions`,
      or the reason the square cannot be selected. */
  method GetAvailableMoves(s: Square, g: Game, jumpOnly: bool) returns (r: Result<seq<Move>>)
    requires s.index == 4 * s.y + s.x
    requires |g.board| >= BoardSize
    ensures (s.x > 3 || s.y > 7) ==> r == Err("Invalid coordinates")
    ensures OnBoard(s) && IsEmpty(s) ==> r == Err("Cannot select blank space")
    ensures OnBoard(s) && !IsEmpty(s) && Player(s) != g.turn ==> r == Err("Cannot select other players piece")
    ensures r.Ok? <==>
      && OnBoard(s) && !IsEmpty(s) && Player(s) == g.turn
      && AnyPossible(DirectionMoves(s, g, jumpOnly, |Directions|))
    ensures OnBoard(s) && !IsEmpty(s) && Player(s) == g.turn
            && !AnyPossible(DirectionMoves(s, g, jumpOnly, |Directions|)) ==>
      r == Err("Piece has nowhere to move")
    ensures r.Err? ==> r.error in {"Invalid coordinates", "Cannot select blank space",
                                   "Cannot select other players piece", "Piece has nowhere to move"}
    ensures r.Ok? ==> r.value == DirectionMoves(s, g, jumpOnly, |Directions|)
  {
    if s.x > 3 || s.y > 7 {
      return Err("Invalid coordinates");
    }
    if IsEmpty(s) {
      return Err("Cannot select blank space");
    }
    if Player(s) != g.turn {
      return Err("Cannot select other players piece");
    }
    var available: seq<Move> := [];
    var possibleMoves := false;
    for i := 0 to |Directions|
      invariant available == DirectionMoves(s, g, jumpOnly, i)
      invariant possibleMoves <==> AnyPossible(available)
    {
      var move := MoveAtDirection(s, Directions[i], g, jumpOnly);
      if move.possible {
        possibleMoves := true;
      }
      AnyPossibleSnoc(available, move);
      available := available + [move];
    }
    if !possibleMoves {
      return Err("Piece has nowhere to move");
    }
    return Ok(available);
  }

  /** When only captures are wanted, every offered move is a capture. */
  lemma JumpOnlyOffersCaptures(s: Square, g: Game, k: nat)
    requires OnBoard(s) && |g.board| >= BoardSize && k < |Directions|
    ensures MoveAtDirection(s, Directions[k], g, true).possible ==>
      MoveAtDirection(s, Directions[k], g, true).jumped != Zero
  {
    MoveKinds(s, Directions[k], g, true);
  }

  /** From the starting layout, with player 2 to move, the piece on index 20 (row 5,
      column 0) has exactly one move: a step north-east onto index 16. */
  lemma StartingMoveFromIndex20()
    ensures SquareAtIndex(20, StartGame) == Ok(Square(0, 5, 20, 2))
    ensures MoveAtDirection(Square(0, 5, 20, 2), NorthWest, StartGame, false) == NoMove
    ensures MoveAtDirection(Square(0, 5, 20, 2), NorthEast, StartGame, false) == Move(true, Square(0, 4, 16, 0), Zero)
    ensures MoveAtDirection(Square(0, 5, 20, 2), SouthWest, StartGame, false) == NoMove
    ensures MoveAtDirection(Square(0, 5, 20, 2), SouthEast, StartGame, false) == NoMove
  {
    var s := Square(0, 5, 20, 2);
    assert StartBoard[20] == '2' && StartBoard[16] == '0';
    assert NeighbourAt(s, NorthWest) == None;
    assert NeighbourAt(s, NorthEast) == Some(16);
  }
}
