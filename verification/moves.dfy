/** The state transitions of `logic/moves.go`: applying a move to the board and passing the turn. */
module Moves {
  import opened Wrappers
  import opened Strconv
  import opened Games
  import opened Squares

  /** The symbol written at the destination: the piece's decimal digit, promoted by 2 when it
      lands on row 0 and is not already a king. */
  function PlacedPiece(s: Square, m: Move): (c: char)
    ensures s.piece <= 9 ==> IsDigit(c)
    ensures s.piece <= 9 ==>
      DigitValue(c) == if m.s.y == 0 && s.piece < 3 then s.piece + 2 else s.piece
  {
    if m.s.y == 0 && s.piece < 3 then FormatUint(s.piece + 2)[0] else FormatUint(s.piece)[0]
  }

  /** The board after `MovePiece`: destination written, then origin cleared, then the jumped
      square cleared when there is one. */
  function MovedBoard(s: Square, m: Move, board: string): (r: string)
    requires s.index < |board| && m.s.index < |board|
    requires m.jumped != Zero ==> m.jumped.index < |board|
    ensures |r| == |board|
  {
    var placed := board[m.s.index := PlacedPiece(s, m)][s.index := '0'];
    if m.jumped != Zero then placed[m.jumped.index := '0'] else placed
  }

  /** What `MovePiece` does to each cell: the origin and the jumped square become empty, the
      destination holds the placed piece, and every other cell keeps its symbol. */
  lemma MovedCells(s: Square, m: Move, board: string)
    requires s.index < |board| && m.s.index < |board|
    requires m.jumped != Zero ==> m.jumped.index < |board|
    ensures MovedBoard(s, m, board)[s.index] == '0'
    ensures m.jumped != Zero ==> MovedBoard(s, m, board)[m.jumped.index] == '0'
    ensures m.s.index != s.index && (m.jumped == Zero || m.jumped.index != m.s.index) ==>
      MovedBoard(s, m, board)[m.s.index] == PlacedPiece(s, m)
    ensures forall i | 0 <= i < |board| && i != s.index && i != m.s.index
                       && (m.jumped == Zero || i != m.jumped.index) ::
      MovedBoard(s, m, board)[i] == board[i]
  {
  }

  /** Applies a move to the board, working on a buffer of its characters as the source does
      on its rune slice. */
  method MovePiece(s: Square, m: Move, board: string) returns (r: string)
    requires s.index < |board| && m.s.index < |board|
    requires m.jumped != Zero ==> m.jumped.index < |board|
    ensures r == MovedBoard(s, m, board)
  {
    var runes := new char[|board|](i requires 0 <= i < |board| => board[i]);
    if m.s.y == 0 && s.piece < 3 {
      runes[m.s.index] := FormatUint(s.piece + 2)[0];
    } else {
      runes[m.s.index] := FormatUint(s.piece)[0];
    }
    runes[s.index] := '0';
    if m.jumped != Zero {
      runes[m.jumped.index] := '0';
    }
    r := runes[..];
  }

  /** A move of a board piece onto an empty square of a valid board leaves a valid board. */
  lemma MovePreservesValidBoard(s: Square, m: Move, board: string)
    requires ValidBoard(board)
    requires s.index < |board| && m.s.index < |board|
    requires m.jumped != Zero ==> m.jumped.index < |board|
    requires 1 <= s.piece <= 4
    ensures ValidBoard(MovedBoard(s, m, board))
  {
    MovedCells(s, m, board);
    var r := MovedBoard(s, m, board);
    forall i | 0 <= i < |r|
      ensures IsCell(r[i])
    {
      if i == s.index || (m.jumped != Zero && i == m.jumped.index) {
      } else if i == m.s.index {
        assert r[i] == PlacedPiece(s, m);
      }
    }
  }

  /** The reverse of a string: what the two-pointer swap loop of `SwapTurn` leaves in its
      rune buffer (see `ReverseRunes`). */
  function Reversed(s: string): (r: string)
    ensures |r| == |s|
  {
    if s == [] then [] else Reversed(s[1..]) + [s[0]]
  }

  lemma {:induction false} ReversedAt(s: string, k: nat)
    requires k < |s|
    ensures |Reversed(s)| == |s| && Reversed(s)[k] == s[|s| - 1 - k]
  {
    if |s| > 1 {
      ReversedAt(s[1..], if k < |s| - 1 then k else 0);
    }
  }

  /** A string that mirrors `s` cell by cell is its reverse. */
  lemma ReversedOf(s: string, t: string)
    requires |t| == |s|
    requires forall k | 0 <= k < |s| :: t[k] == s[|s| - 1 - k]
    ensures t == Reversed(s)
  {
    forall k | 0 <= k < |s|
      ensures t[k] == Reversed(s)[k]
    {
      ReversedAt(s, k);
    }
  }

  /** Reversing twice gives the string back. */
  lemma ReversedTwice(s: string)
    ensures Reversed(Reversed(s)) == s
  {
    if s != [] { ReversedAt(s, 0); }
    var r := Reversed(s);
    forall k | 0 <= k < |s|
      ensures Reversed(r)[k] == s[k]
    {
      ReversedAt(s, k);
      ReversedAt(s, |s| - 1 - k);
      ReversedAt(r, k);
    }
  }

  /** The game after `SwapTurn`, and its error: selection cleared first, then the turn
      toggled and the board turned round, or "Invalid turn" with only the selection cleared. */
  function Swapped(g: Game): (r: (Game, Outcome))
    ensures r.0.selected == 0
    ensures r.1 == Pass <==> g.turn == 1 || g.turn == 2
    ensures r.1 == Pass ==> r.0.turn == 3 - g.turn && |r.0.board| == |g.board|
    ensures r.1 != Pass ==> r.1 == Fail("Invalid turn") && r.0.turn == g.turn && r.0.board == g.board
  {
    if g.turn == 1 then (Game(0, 2, Reversed(g.board)), Pass)
    else if g.turn == 2 then (Game(0, 1, Reversed(g.board)), Pass)
    else (g.(selected := 0), Fail("Invalid turn"))
  }

  /** Passing the turn: the other player moves, nothing is selected, and cell `i` of the new
      board is cell `len - 1 - i` of the old one; an unknown turn is refused, and then only
      the selection has changed. */
  lemma SwapTurnEffect(g: Game)
    ensures Swapped(g).0.selected == 0
    ensures (g.turn == 1 || g.turn == 2) ==>
      && Swapped(g).1 == Pass
      && Swapped(g).0.turn == 3 - g.turn
      && |Swapped(g).0.board| == |g.board|
      && forall i | 0 <= i < |g.board| :: Swapped(g).0.board[i] == g.board[|g.board| - 1 - i]
    ensures !(g.turn == 1 || g.turn == 2) ==>
      Swapped(g) == (g.(selected := 0), Fail("Invalid turn"))
  {
    if g.board != [] { ReversedAt(g.board, 0); }
    forall i | 0 <= i < |g.board|
      ensures Reversed(g.board)[i] == g.board[|g.board| - 1 - i]
    {
      ReversedAt(g.board, i);
    }
  }

  /** Passing the turn twice restores the turn and the board. */
  lemma SwapTwice(g: Game)
    requires g.turn == 1 || g.turn == 2
    ensures Swapped(Swapped(g).0) == (g.(selected := 0), Pass)
  {
    ReversedTwice(g.board);
  }

  /** Passing the turn keeps a valid game valid. */
  lemma SwapPreservesValid(g: Game)
    requires Valid(g)
    ensures Valid(Swapped(g).0)
  {
    SwapTurnEffect(g);
  }

  /** Turns a character buffer round in place, swapping from both ends towards the middle. */
  method ReverseRunes(runes: array<char>)
    modifies runes
    ensures runes[..] == Reversed(old(runes[..]))
  {
    ghost var before := runes[..];
    var n := runes.Length;
    var i, j := 0, n - 1;
    while i < j
      invariant 0 <= i <= j + 1 <= n
      invariant j == n - 1 - i
      invariant forall k | 0 <= k < i :: runes[k] == before[n - 1 - k] && runes[n - 1 - k] == before[k]
      invariant forall k | i <= k <= j :: runes[k] == before[k]
    {
      runes[i], runes[j] := runes[j], runes[i];
      i, j := i + 1, j - 1;
    }
    assert forall k | 0 <= k < n :: runes[..][k] == before[n - 1 - k];
    ReversedOf(before, runes[..]);
  }

  /** Passes the turn: clears the selection, toggles the turn and turns the board round. */
  method SwapTurn(g: Game) returns (game: Game, err: Outcome)
    ensures (game, err) == Swapped(g)
  {
    game := g.(selected := 0);
    if game.turn == 1 {
      game := game.(turn := 2);
    } else if game.turn == 2 {
      game := game.(turn := 1);
    } else {
      return game, Fail("Invalid turn");
    }
    var runes := new char[|game.board|](k requires 0 <= k < |g.board| => g.board[k]);
    assert runes[..] == g.board;
    ReverseRunes(runes);
    game := game.(board := runes[..]);
    err := Pass;
  }
}
