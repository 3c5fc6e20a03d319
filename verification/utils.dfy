/** The helpers of `discord/utils.go`: filtering a message's reactions, and the one-line text
    form in which a game is stored between moves. */
module Utils {
  import opened Wrappers
  import opened Strconv
  import opened Strs
  import opened Games

  /** One reaction on a message: the emoji's name, how many users chose it, and whether the
      bot itself is one of them. */
  datatype Reaction = Reaction(emoji: string, count: int, me: bool)

  // ---------------------------------------------------------------- reactions

  /** The reactions the bot has placed itself, in their original order. */
  function BotReactions(rs: seq<Reaction>): (r: seq<Reaction>)
    ensures |r| <= |rs|
    ensures forall x :: x in r <==> x in rs && x.me
  {
    if rs == [] then []
    else
      var last := rs[|rs| - 1];
      assert rs == rs[..|rs| - 1] + [last];
      BotReactions(rs[..|rs| - 1]) + (if last.me then [last] else [])
  }

  /** Filtering distributes over concatenation: the bot's reactions keep their relative order. */
  lemma {:induction false} BotReactionsAppend(a: seq<Reaction>, b: seq<Reaction>)
    ensures BotReactions(a + b) == BotReactions(a) + BotReactions(b)
  {
    if b == [] {
      assert a + b == a;
    } else {
      var last := b[|b| - 1];
      assert (a + b)[..|a + b| - 1] == a + b[..|b| - 1];
      BotReactionsAppend(a, b[..|b| - 1]);
    }
  }

  /** Filtering twice is filtering once. */
  lemma {:induction false} BotReactionsIdempotent(rs: seq<Reaction>)
    ensures BotReactions(BotReactions(rs)) == BotReactions(rs)
  {
    if rs != [] {
      var last := rs[|rs| - 1];
      BotReactionsIdempotent(rs[..|rs| - 1]);
      BotReactionsAppend(BotReactions(rs[..|rs| - 1]), if last.me then [last] else []);
    }
  }

  /** `getBotReactions`: one pass, appending each reaction the bot placed. */
  method GetBotReactions(reactions: seq<Reaction>) returns (botReactions: seq<Reaction>)
    ensures botReactions == BotReactions(reactions)
  {
    botReactions := [];
    for i := 0 to |reactions|
      invariant botReactions == BotReactions(reactions[..i])
    {
      assert reactions[..i + 1][..i] == reactions[..i];
      if reactions[i].me {
        botReactions := botReactions + [reactions[i]];
      }
    }
    assert reactions[..|reactions|] == reactions;
  }

  /** `isBotReaction`: whether the bot itself placed a reaction with this emoji, which is
      whether the emoji is among the bot's reactions. */
  method IsBotReaction(reactions: seq<Reaction>, name: string) returns (found: bool)
    ensures found <==> exists i | 0 <= i < |reactions| :: reactions[i].emoji == name && reactions[i].me
    ensures found <==> exists x | x in BotReactions(reactions) :: x.emoji == name
  {
    for i := 0 to |reactions|
      invariant forall k | 0 <= k < i :: !(reactions[k].emoji == name && reactions[k].me)
    {
      if reactions[i].emoji == name && reactions[i].me {
        return true;
      }
    }
    return false;
  }

  /** `hasOtherReactionsBesides`: some emoji other than the allowed one has been chosen by a
      user as well as by the bot (a count above 1). */
  method HasOtherReactionsBesides(allowed: string, reactions: seq<Reaction>) returns (found: bool)
    ensures found <==> exists i | 0 <= i < |reactions| :: reactions[i].count > 1 && reactions[i].emoji != allowed
  {
    for i := 0 to |reactions|
      invariant forall k | 0 <= k < i :: !(reactions[k].count > 1 && reactions[k].emoji != allowed)
    {
      if reactions[i].count > 1 && allowed != reactions[i].emoji {
        return true;
      }
    }
    return false;
  }

  // ---------------------------------------------------------------- game text

  /** `StringifyGame`: the opponent's id, the turn, the board and the selection, separated by
      single spaces. When the id and the board hold no space, splitting gives the four fields back. */
  function StringifyGame(opponentId: string, g: Game): (r: string)
    ensures ' ' !in opponentId && ' ' !in g.board ==>
      Split(r, ' ') == [opponentId, FormatUint(g.turn), g.board, FormatUint(g.selected)]
  {
    var values := [opponentId, FormatUint(g.turn), g.board, FormatUint(g.selected)];
    if ' ' !in opponentId && ' ' !in g.board then
      SplitJoin(values, ' ');
      Join(values, " ")
    else
      Join(values, " ")
  }

  /** `ParseGame`: the opponent's id and the game, or the first problem found. The numbers are
      read as 64-bit unsigned decimals and then narrowed to 8 bits, as Go's `uint8(...)` does. */
  function ParseGame(s: string): (r: Result<(string, Game)>)
    ensures Count(s, ' ') != 3 <==> r == Err("Invalid input")
    ensures r.Err? ==> r.error in {"Invalid input", "Could not parse turn", "Could not parse selected"}
    ensures r.Ok? ==> ' ' !in r.value.0 && ' ' !in r.value.1.board
    // the turn field is checked before the selected field
    ensures r == Err("Could not parse turn") <==>
      Count(s, ' ') == 3 && ParseUint(Split(s, ' ')[1]).None?
    ensures r == Err("Could not parse selected") <==>
      Count(s, ' ') == 3 && ParseUint(Split(s, ' ')[1]).Some? && ParseUint(Split(s, ' ')[3]).None?
    // the id and the board are taken verbatim, the numbers narrowed to 8 bits
    ensures r.Ok? ==>
      var v := Split(s, ' ');
      && r.value.0 == v[0] && r.value.1.board == v[2]
      && r.value.1.turn == ParseUint(v[1]).value % 256
      && r.value.1.selected == ParseUint(v[3]).value % 256
  {
    var values := Split(s, ' ');
    if |values| != 4 then Err("Invalid input")
    else
      match ParseUint(values[1])
      case None => Err("Could not parse turn")
      case Some(turn) =>
        match ParseUint(values[3])
        case None => Err("Could not parse selected")
        case Some(selected) =>
          Ok((values[0], Game(selected % 256, turn % 256, values[2])))
  }

  /** Storing a game and reading it back gives the same opponent and game, as long as neither
      the id nor the board holds a space. */
  lemma ParseStringify(opponentId: string, g: Game)
    requires ' ' !in opponentId && ' ' !in g.board
    ensures ParseGame(StringifyGame(opponentId, g)) == Ok((opponentId, g))
  {
    ParseFormat(g.turn);
    ParseFormat(g.selected);
  }

  /** Reading a stored game and storing it again gives the same text, when its numbers are
      written the way `StringifyGame` writes them (no leading zeros, below 256). */
  lemma StringifyParse(s: string)
    requires ParseGame(s).Ok?
    requires var v := Split(s, ' ');
      v[1] == FormatUint(ParseGame(s).value.1.turn) && v[3] == FormatUint(ParseGame(s).value.1.selected)
    ensures StringifyGame(ParseGame(s).value.0, ParseGame(s).value.1) == s
  {
    JoinSplit(s, ' ');
    var v := Split(s, ' ');
    assert [v[0], v[1], v[2], v[3]] == v;
  }

  // ---------------------------------------------------------------- joining and splitting

  /** Joining the pieces of a split puts the separators back. */
  lemma {:induction false} JoinSplit(s: string, sep: char)
    ensures Join(Split(s, sep), [sep]) == s
  {
    if s != [] {
      var rest := Split(s[1..], sep);
      JoinSplit(s[1..], sep);
      if s[0] == sep {
        assert Split(s, sep) == [""] + rest;
        assert Join([""] + rest, [sep]) == [sep] + Join(rest, [sep]) by {
          assert ([""] + rest)[1..] == rest;
        }
      } else {
        assert Split(s, sep) == [[s[0]] + rest[0]] + rest[1..];
        JoinCons(s[0], rest, [sep]);
      }
      assert s == [s[0]] + s[1..];
    }
  }

  /** Prefixing the first piece prefixes the joined string. */
  lemma JoinCons(c: char, parts: seq<string>, sep: string)
    requires |parts| >= 1
    ensures Join([[c] + parts[0]] + parts[1..], sep) == [c] + Join(parts, sep)
  {
    var q := [[c] + parts[0]] + parts[1..];
    assert q[1..] == parts[1..];
  }
}
