/**
 * How the page and the server fit together: the winner strings of `/play`
 * as the page scores them, and a score saved by the page as the server
 * stores and ranks it.
 */
module Protocol {
  import opened Wrappers
  import opened Play
  import opened Session
  import Leaderboard

  /**
   * The page scores every server outcome as intended: a player win adds one
   * to the streak and ten points, a bot win (including any unknown player
   * move) ends the streak, and the server's "draw" changes neither.
   */
  lemma ServerOutcomeScoring(s: State, playerMove: string, botMove: Move)
    ensures var r := Resolve(s, WinnerName(Winner(playerMove, botMove)));
      match Winner(playerMove, botMove)
      case PlayerWins => r.currentStreak == s.currentStreak + 1 && r.currentScore == s.currentScore + 10
      case BotWins => r.currentStreak == 0 && r.currentScore == if s.currentScore >= 5 then s.currentScore - 5 else 0
      case Draw => r.currentStreak == s.currentStreak && r.currentScore == s.currentScore
    ensures ParseMove(playerMove).None? ==>
      Resolve(s, WinnerName(Winner(playerMove, botMove))).currentStreak == 0
  {
  }

  /**
   * A submission the page sends always passes the server's check, and the
   * refreshed leaderboard lists it when fewer than ten stored entries score
   * at least as much.
   */
  lemma SubmittedScoreListed(stored: seq<Leaderboard.Entry>, nameInput: string, s: State)
    requires !Blank(nameInput)
    ensures !Leaderboard.IsFalsy(Some(Trim(nameInput)))
    ensures var e := Leaderboard.Entry(Trim(nameInput), s.currentScore);
      Leaderboard.CountAtLeast(stored, e.score) < Leaderboard.TopCount ==>
        e in Leaderboard.Top(stored + [e])
  {
    TrimEmptyIffBlank(nameInput);
    Leaderboard.NewEntryRank(stored, Leaderboard.Entry(Trim(nameInput), s.currentScore));
  }
}
