/** The score of `logic/score.go`: how many of each player's twelve pieces have been taken. */
module Score {
  import opened Wrappers
  import opened Strconv
  import opened Games
  import opened Squares
  import opened Strs
  import opened Moves

  /** The number of cells of `b` holding a piece (plain or king) of player `p`. */
  function Owned(b: string, p: nat): (n: nat)
    ensures n <= |b|
    ensures n == 0 <==> forall i | 0 <= i < |b| :: CellOwner(b[i]) != p
  {
    if b == [] then 0 else (if CellOwner(b[0]) == p then 1 else 0) + Owned(b[1..], p)
  }

  /** A player's pieces are the symbols of their plain pieces and of their kings. */
  lemma {:induction false} OwnedIsCount(b: string, p: nat)
    requires p == 1 || p == 2
    ensures Owned(b, p) == Count(b, DigitChar(p)) + Count(b, DigitChar(p + 2))
  {
    if b != [] {
      OwnedIsCount(b[1..], p);
    }
  }

  /** The pair (pieces of player 2 taken, pieces of player 1 taken): the first component is
      player 1's score and the second is player 2's. */
  function GetScore(g: Game): (r: (int, int))
    ensures r.0 == 12 - Owned(g.board, 2)
    ensures r.1 == 12 - Owned(g.board, 1)
  {
    OwnedIsCount(g.board, 1);
    OwnedIsCount(g.board, 2);
    (12 - (Count(g.board, '2') + Count(g.board, '4')), 12 - (Count(g.board, '1') + Count(g.board, '3')))
  }

  /** Overwriting one cell moves at most one piece count: the old symbol's owner loses one
      and the new symbol's owner gains one. */
  lemma {:induction false} OwnedUpdate(b: string, i: nat, c: char, p: nat)
    requires i < |b|
    ensures Owned(b[i := c], p) + (if CellOwner(b[i]) == p then 1 else 0)
         == Owned(b, p) + (if CellOwner(c) == p then 1 else 0)
  {
    if i == 0 {
      assert b[i := c][1..] == b[1..];
    } else {
      OwnedUpdate(b[1..], i - 1, c, p);
      assert b[i := c][1..] == b[1..][i - 1 := c];
    }
  }

  /** The mirrored board holds the same pieces. */
  lemma {:induction false} OwnedReversed(b: string, p: nat)
    ensures Owned(Reversed(b), p) == Owned(b, p)
  {
    if b != [] {
      var r := Reversed(b);
      var last := |b| - 1;
      assert r == [b[last]] + Reversed(b[..last]) by {
        ReversedAt(b, 0);
        forall k | 0 <= k < |r| ensures r[k] == ([b[last]] + Reversed(b[..last]))[k] {
          ReversedAt(b, k);
          if k > 0 { ReversedAt(b[..last], k - 1); }
        }
      }
      assert r[1..] == Reversed(b[..last]);
      OwnedReversed(b[..last], p);
      OwnedSnoc(b[..last], b[last], p);
      assert b[..last] + [b[last]] == b;
    }
  }

  /** Appending one symbol adds that symbol's owner once. */
  lemma {:induction false} OwnedSnoc(b: string, c: char, p: nat)
    ensures Owned(b + [c], p) == Owned(b, p) + (if CellOwner(c) == p then 1 else 0)
  {
    if b != [] {
      assert (b + [c])[1..] == b[1..] + [c];
      OwnedSnoc(b[1..], c, p);
    }
  }

  /** No piece has been taken at the start. */
  lemma StartScore()
    ensures GetScore(StartGame).0 == 0 && GetScore(StartGame).1 == 0
  {
    StartBoardRuns();
    RunsScore(StartGame, 12, 8, 12);
  }

  /** The score of a board laid out in three runs: player 1's pieces, blanks, player 2's pieces. */
  lemma RunsScore(g: Game, ones: nat, blanks: nat, twos: nat)
    requires g.board == Run('1', ones) + Run('0', blanks) + Run('2', twos)
    ensures GetScore(g).0 == 12 - twos && GetScore(g).1 == 12 - ones
  {
    OwnedRuns(1, ones, blanks, twos);
    OwnedRuns(2, ones, blanks, twos);
  }

  /** `n` copies of the symbol `c`. */
  function Run(c: char, n: nat): (r: string)
    ensures |r| == n && forall i | 0 <= i < n :: r[i] == c
  {
    if n == 0 then [] else [c] + Run(c, n - 1)
  }

  /** The starting layout: twelve pieces of player 1, eight empty squares, twelve of player 2. */
  lemma StartBoardRuns()
    ensures StartBoard == Run('1', 12) + Run('0', 8) + Run('2', 12)
  {
  }

  lemma {:induction false} OwnedRun(c: char, n: nat, p: nat)
    ensures Owned(Run(c, n), p) == if CellOwner(c) == p then n else 0
  {
    if n > 0 {
      assert Run(c, n)[1..] == Run(c, n - 1);
      OwnedRun(c, n - 1, p);
    }
  }

  lemma {:induction false} OwnedAppend(a: string, b: string, p: nat)
    ensures Owned(a + b, p) == Owned(a, p) + Owned(b, p)
  {
    if a != [] {
      assert (a + b)[0] == a[0];
      assert (a + b)[1..] == a[1..] + b;
      OwnedAppend(a[1..], b, p);
    } else {
      assert a + b == b;
    }
  }

  /** A board of runs of player 1's pieces, empty squares and player 2's pieces holds as many
      pieces of each player as their run is long. */
  lemma OwnedRuns(p: nat, ones: nat, blanks: nat, twos: nat)
    requires p == 1 || p == 2
    ensures Owned(Run('1', ones) + Run('0', blanks) + Run('2', twos), p) == if p == 1 then ones else twos
  {
    var a, b, c := Run('1', ones), Run('0', blanks), Run('2', twos);
    OwnedAppend(a + b, c, p);
    OwnedAppend(a, b, p);
    OwnedRun('1', ones, p);
    OwnedRun('0', blanks, p);
    OwnedRun('2', twos, p);
  }

  /** Passing the turn, which turns the board round, does not change the score. */
  lemma SwapKeepsScore(g: Game)
    ensures GetScore(Swapped(g).0).0 == GetScore(g).0
    ensures GetScore(Swapped(g).0).1 == GetScore(g).1
  {
    var h := Swapped(g).0;
    if g.turn == 1 || g.turn == 2 {
      assert h.board == Reversed(g.board);
      OwnedReversed(g.board, 1);
      OwnedReversed(g.board, 2);
    } else {
      assert h.board == g.board;
    }
  }

  /** The placed symbol, promoted or not, belongs to the moving piece's owner. */
  lemma PlacedOwner(s: Square, m: Move)
    requires 1 <= s.piece <= 4
    ensures CellOwner(PlacedPiece(s, m)) == Player(s)
  {
    var c := PlacedPiece(s, m);
    assert c == DigitChar(DigitValue(c));
  }

  /** A move keeps every player's piece count, except that the owner of the jumped piece,
      when there is one, loses exactly one. */
  lemma MovedOwned(s: Square, m: Move, b: string, p: nat)
    requires s.index < |b| && m.s.index < |b| && (m.jumped != Zero ==> m.jumped.index < |b|)
    requires 1 <= s.piece <= 4 && CellOwner(b[s.index]) == Player(s)
    requires b[m.s.index] == '0' && m.s.index != s.index
    requires m.jumped != Zero ==> m.jumped.index != s.index && m.jumped.index != m.s.index
    requires p == 1 || p == 2
    ensures Owned(MovedBoard(s, m, b), p)
         == Owned(b, p) - (if m.jumped != Zero && CellOwner(b[m.jumped.index]) == p then 1 else 0)
  {
    PlacedOwner(s, m);
    var b1 := b[m.s.index := PlacedPiece(s, m)];
    OwnedUpdate(b, m.s.index, PlacedPiece(s, m), p);
    var b2 := b1[s.index := '0'];
    OwnedUpdate(b1, s.index, '0', p);
    if m.jumped != Zero {
      OwnedUpdate(b2, m.jumped.index, '0', p);
    }
  }

  /** The score after applying a step or a capture by the player to move. */
  lemma ScoreAfterMove(s: Square, m: Move, g: Game)
    requires Valid(g) && s.index < |g.board| && m.s.index < |g.board|
    requires m.jumped != Zero ==> m.jumped.index < |g.board|
    requires 1 <= s.piece <= 4 && CellOwner(g.board[s.index]) == Player(s) == g.turn
    requires g.board[m.s.index] == '0' && m.s.index != s.index
    requires m.jumped != Zero ==>
      && m.jumped.index != s.index && m.jumped.index != m.s.index
      && CellOwner(g.board[m.jumped.index]) == 3 - g.turn
    ensures var before := GetScore(g);
      var after := GetScore(g.(board := MovedBoard(s, m, g.board)));
      && after.0 == before.0 + (if m.jumped != Zero && g.turn == 1 then 1 else 0)
      && after.1 == before.1 + (if m.jumped != Zero && g.turn == 2 then 1 else 0)
  {
    var h := g.(board := MovedBoard(s, m, g.board));
    MovedOwned(s, m, g.board, 1);
    MovedOwned(s, m, g.board, 2);
    ScoreChange(g, h, if m.jumped == Zero then 0 else 3 - g.turn);
  }

  /** The score moves by one for the player whose piece count went down by one. */
  lemma ScoreChange(g: Game, h: Game, lost: nat)
    requires lost <= 2
    requires Owned(h.board, 1) == Owned(g.board, 1) - (if lost == 1 then 1 else 0)
    requires Owned(h.board, 2) == Owned(g.board, 2) - (if lost == 2 then 1 else 0)
    ensures GetScore(h).0 == GetScore(g).0 + (if lost == 2 then 1 else 0)
    ensures GetScore(h).1 == GetScore(g).1 + (if lost == 1 then 1 else 0)
  {
  }

  /** Scoring a move the engine offers: a simple step leaves the score as it was, and a capture
      adds exactly one to the score of the player who moved. */
  lemma MoveScores(s: Square, d: Direction, g: Game, jumpOnly: bool)
    requires Valid(g) && OnBoard(s) && d in Directions
    requires SquareAtIndex(s.index, g) == Ok(s)
    requires !IsEmpty(s) && Player(s) == g.turn
    ensures var m := MoveAtDirection(s, d, g, jumpOnly);
      m.possible ==>
        var before := GetScore(g);
        var after := GetScore(g.(board := MovedBoard(s, m, g.board)));
        && after.0 == before.0 + (if m.jumped != Zero && g.turn == 1 then 1 else 0)
        && after.1 == before.1 + (if m.jumped != Zero && g.turn == 2 then 1 else 0)
  {
    var m := MoveAtDirection(s, d, g, jumpOnly);
    if m.possible {
      MoveKinds(s, d, g, jumpOnly);
      CellsOfMove(s, m, g);
      ScoreAfterMove(s, m, g);
    }
  }

  /** The board facts behind a move: the mover's and the jumped piece's symbols name their
      owners, and the squares involved lie in different rows, so at different indices. */
  lemma CellsOfMove(s: Square, m: Move, g: Game)
    requires Valid(g) && OnBoard(s) && OnBoard(m.s)
    requires SquareAtIndex(s.index, g) == Ok(s)
    requires !IsEmpty(s) && Player(s) == g.turn
    requires m.s.y != s.y && g.board[m.s.index] == '0'
    requires m.jumped != Zero ==>
      && OnBoard(m.jumped) && m.jumped.y != s.y && m.jumped.y != m.s.y
      && IsDigit(g.board[m.jumped.index]) && m.jumped.piece == DigitValue(g.board[m.jumped.index])
      && !IsEmpty(m.jumped) && Player(m.jumped) != g.turn
    ensures 1 <= s.piece <= 4 && CellOwner(g.board[s.index]) == Player(s)
    ensures m.s.index != s.index
    ensures m.jumped != Zero ==>
      && m.jumped.index != s.index && m.jumped.index != m.s.index
      && CellOwner(g.board[m.jumped.index]) == 3 - g.turn
  {
    assert IsCell(g.board[s.index]);
    OwnerOfCell(s, g.board[s.index]);
    if m.jumped != Zero {
      assert IsCell(g.board[m.jumped.index]);
      OwnerOfCell(m.jumped, g.board[m.jumped.index]);
    }
  }
}
