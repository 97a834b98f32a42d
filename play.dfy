/**
 * The server's round rule: the `/play` handler of rps_game/app.py.
 *
 * The player's move arrives unvalidated from the request body, so it is a
 * `string` here; the bot's move is drawn from the three moves.  The winner is
 * decided by comparing the two as strings, exactly as the handler does.
 */
module Play {
  import opened Wrappers

  datatype Move = Rock | Paper | Scissors

  /** The three values of the `winner` field of a `/play` response. */
  datatype Outcome = Draw | PlayerWins | BotWins

  /** The `moves` list the bot chooses from. */
  const Moves: seq<Move> := [Rock, Paper, Scissors]

  /** The wire spelling of a move. */
  function Name(m: Move): string
  {
    match m
    case Rock => "rock"
    case Paper => "paper"
    case Scissors => "scissors"
  }

  /** Reads a move from its wire spelling; anything else is no move at all. */
  function ParseMove(s: string): (m: Option<Move>)
    ensures m.Some? ==> Name(m.value) == s
    ensures m.None? ==> forall x: Move :: Name(x) != s
  {
    if s == "rock" then Some(Rock)
    else if s == "paper" then Some(Paper)
    else if s == "scissors" then Some(Scissors)
    else None
  }

  /** The wire spelling of an outcome. */
  function WinnerName(w: Outcome): string
  {
    match w
    case Draw => "draw"
    case PlayerWins => "player"
    case BotWins => "bot"
  }

  /** Position of a move in the cycle rock -> paper -> scissors -> rock. */
  function Index(m: Move): int
  {
    match m
    case Rock => 0
    case Paper => 1
    case Scissors => 2
  }

  /**
   * Reference definition of the game: a move beats the move one step before
   * it in the cycle.  This is independent of the handler's case list.
   */
  predicate Beats(a: Move, b: Move)
  {
    (Index(a) - Index(b)) % 3 == 1
  }

  /**
   * The handler's if/elif chain: a draw when the two moves are equal as
   * strings, a player win for the three listed pairs, the bot otherwise —
   * including every player move that is not one of the three.
   */
  function Winner(playerMove: string, botMove: Move): (w: Outcome)
    ensures w == Draw <==> ParseMove(playerMove) == Some(botMove)
    ensures w == PlayerWins <==>
      ParseMove(playerMove).Some? && Beats(ParseMove(playerMove).value, botMove)
    ensures w == BotWins <==>
      ParseMove(playerMove).None? || Beats(botMove, ParseMove(playerMove).value)
  {
    var bot := Name(botMove);
    if playerMove == bot then Draw
    else if (playerMove == "rock" && bot == "scissors")
         || (playerMove == "paper" && bot == "rock")
         || (playerMove == "scissors" && bot == "paper")
    then PlayerWins
    else BotWins
  }

  datatype PlayResponse = PlayResponse(botMove: string, winner: string)

  /**
   * One `/play` request.  The bot's move is an arbitrary element of `Moves`
   * (the random choice, without its distribution).
   */
  method Play(playerMove: string) returns (r: PlayResponse)
    ensures r.botMove == "rock" || r.botMove == "paper" || r.botMove == "scissors"
    ensures ParseMove(r.botMove).Some?
    ensures r.winner == WinnerName(Winner(playerMove, ParseMove(r.botMove).value))
    ensures r.winner == "draw" <==> playerMove == r.botMove
    ensures ParseMove(playerMove).None? ==> r.winner == "bot"
  {
    var bot :| bot in Moves;
    var w := Winner(playerMove, bot);
    r := PlayResponse(Name(bot), WinnerName(w));
  }

  /** Swapping the roles of two valid moves swaps a player win for a bot win. */
  lemma WinnerAntisymmetric(a: Move, b: Move)
    ensures Winner(Name(a), b) == PlayerWins <==> Winner(Name(b), a) == BotWins
    ensures Winner(Name(a), b) == Draw <==> a == b
  {
  }

  /** Each move beats exactly one move and is beaten by exactly one move. */
  lemma BeatsExactlyOne(a: Move)
    ensures exists b :: Beats(a, b) && forall c :: Beats(a, c) ==> c == b
    ensures exists b :: Beats(b, a) && forall c :: Beats(c, a) ==> c == b
  {
    match a
    case Rock => assert Beats(Rock, Scissors) && Beats(Paper, Rock);
    case Paper => assert Beats(Paper, Rock) && Beats(Scissors, Paper);
    case Scissors => assert Beats(Scissors, Paper) && Beats(Rock, Scissors);
  }

  /** The wire spelling of a move reads back as that move. */
  lemma ParseName(m: Move)
    ensures ParseMove(Name(m)) == Some(m)
  {
  }
}
