/**
 * The browser-side session of rps_game/static/js/script.js: the four
 * closure variables, the move-click guard, the round start, the recovery
 * from a failed `/play` call, the scoring of a resolved round, the
 * save-score gate and the name check before a score is submitted.
 */
module Session {
  import opened Wrappers

  /** The session variables as one value. */
  datatype State = State(currentStreak: nat, bestStreak: nat, currentScore: nat, isPlaying: bool)

  /** The values the page starts with. */
  const Initial: State := State(0, 0, 0, false)

  /**
   * What every reachable state satisfies: the best streak is at least the
   * current one, and every win of the current streak is still in the score.
   */
  predicate Invariant(s: State)
  {
    s.bestStreak >= s.currentStreak && s.currentScore >= 10 * s.currentStreak
  }

  /**
   * The effect of `resolveRound` on the session.  The winner is the string
   * delivered by the server: "player" is a win, "bot" a loss, and any other
   * value — the server's "draw", or a missing field — counts as a draw.
   */
  function Resolve(s: State, winner: string): (r: State)
    ensures Invariant(s) ==> Invariant(r)
    ensures r.bestStreak >= s.bestStreak && r.bestStreak >= r.currentStreak
    ensures r.bestStreak == s.bestStreak || r.bestStreak == r.currentStreak
    ensures !r.isPlaying
  {
    var (streak, score) :=
      if winner == "player" then (s.currentStreak + 1, s.currentScore + 10)
      else if winner == "bot" then (0, if s.currentScore >= 5 then s.currentScore - 5 else 0)
      else (s.currentStreak, s.currentScore);
    var best := if streak > s.bestStreak then streak else s.bestStreak;
    State(streak, best, score, false)
  }

  /** The session after a series of resolved rounds, oldest first. */
  function Rounds(s: State, winners: seq<string>): State
  {
    if winners == [] then s
    else Resolve(Rounds(s, winners[..|winners| - 1]), winners[|winners| - 1])
  }

  /**
   * The streak as the game describes it: the number of wins since the last
   * loss, draws not counting either way.
   */
  function TrailingWins(winners: seq<string>): nat
  {
    if winners == [] then 0
    else if winners[|winners| - 1] == "bot" then 0
    else TrailingWins(winners[..|winners| - 1]) + (if winners[|winners| - 1] == "player" then 1 else 0)
  }

  /** The longest streak reached after any prefix of the rounds. */
  function LongestStreak(winners: seq<string>): nat
  {
    if winners == [] then 0
    else
      var before := LongestStreak(winners[..|winners| - 1]);
      var now := TrailingWins(winners);
      if now > before then now else before
  }

  /** The number of wins among the rounds. */
  function Wins(winners: seq<string>): nat
  {
    if winners == [] then 0
    else Wins(winners[..|winners| - 1]) + (if winners[|winners| - 1] == "player" then 1 else 0)
  }

  /**
   * From the initial state, the streak counts the wins since the last loss,
   * the best streak is the longest streak ever reached, the invariant holds
   * and the score lies between ten points per current-streak win and ten
   * points per win overall.
   */
  lemma {:induction false} RoundsFromInitial(winners: seq<string>)
    ensures Invariant(Rounds(Initial, winners))
    ensures Rounds(Initial, winners).currentStreak == TrailingWins(winners)
    ensures Rounds(Initial, winners).bestStreak == LongestStreak(winners)
    ensures Rounds(Initial, winners).currentScore <= 10 * Wins(winners)
    ensures winners != [] ==> !Rounds(Initial, winners).isPlaying
  {
    if winners != [] {
      RoundsFromInitial(winners[..|winners| - 1]);
    }
  }

  /** Over any series of rounds the best streak never decreases. */
  lemma {:induction false} BestStreakMonotone(s: State, winners: seq<string>)
    ensures Rounds(s, winners).bestStreak >= s.bestStreak
    ensures Invariant(s) ==> Invariant(Rounds(s, winners))
  {
    if winners != [] {
      BestStreakMonotone(s, winners[..|winners| - 1]);
    }
  }

  /** Three wins from a fresh page, then a loss. */
  lemma WinsThenLoss()
    ensures Rounds(Initial, ["player", "player", "player"]) == State(3, 3, 30, false)
    ensures Rounds(Initial, ["player", "player", "player", "bot"]) == State(0, 3, 25, false)
  {
    assert ["player", "player", "player", "bot"][..3] == ["player", "player", "player"];
    assert ["player", "player", "player"][..2] == ["player", "player"];
    assert ["player", "player"][..1] == ["player"];
  }

  /**
   * Whitespace as String.prototype.trim understands it: the ECMAScript
   * WhiteSpace and LineTerminator code points.
   */
  predicate IsWhitespace(c: char)
  {
    c == '\t' || c == '\n' || c == '\U{B}' || c == '\U{C}' || c == '\r' || c == ' '
    || c == '\U{A0}' || c == '\U{1680}' || ('\U{2000}' <= c <= '\U{200A}')
    || c == '\U{2028}' || c == '\U{2029}' || c == '\U{202F}' || c == '\U{205F}'
    || c == '\U{3000}' || c == '\U{FEFF}'
  }

  predicate Blank(s: string)
  {
    forall i :: 0 <= i < |s| ==> IsWhitespace(s[i])
  }

  /** Drops leading whitespace. */
  function TrimStart(s: string): (r: string)
    ensures |r| <= |s| && r == s[|s| - |r|..]
    ensures Blank(s[..|s| - |r|])
    ensures r == [] || !IsWhitespace(r[0])
  {
    if s != [] && IsWhitespace(s[0]) then
      var r := TrimStart(s[1..]);
      assert s[..|s| - |r|] == [s[0]] + s[1..][..|s| - 1 - |r|];
      r
    else s
  }

  /** Drops trailing whitespace. */
  function TrimEnd(s: string): (r: string)
    ensures |r| <= |s| && r == s[..|r|]
    ensures Blank(s[|r|..])
    ensures r == [] || !IsWhitespace(r[|r| - 1])
  {
    if s != [] && IsWhitespace(s[|s| - 1]) then
      var r := TrimEnd(s[..|s| - 1]);
      assert s[|r|..] == s[..|s| - 1][|r|..] + [s[|s| - 1]];
      r
    else s
  }

  /**
   * `String.prototype.trim`: the part of `s` left after whitespace is cut
   * from both ends.
   */
  function Trim(s: string): (r: string)
    ensures var i := |s| - |TrimStart(s)|;
      0 <= i && i + |r| <= |s| && r == s[i..i + |r|] && Blank(s[..i]) && Blank(s[i + |r|..])
    ensures r == [] || (!IsWhitespace(r[0]) && !IsWhitespace(r[|r| - 1]))
  {
    var t := TrimStart(s);
    var r := TrimEnd(t);
    var i := |s| - |t|;
    assert t == s[i..];
    assert r == s[i..i + |r|] by { assert s[i..][..|r|] == s[i..i + |r|]; }
    assert s[i + |r|..] == t[|r|..];
    r
  }

  /** The trimmed name is empty exactly when the typed name is blank. */
  lemma TrimEmptyIffBlank(s: string)
    ensures Trim(s) == [] <==> Blank(s)
  {
    var i := |s| - |TrimStart(s)|;
    if Trim(s) == [] {
      assert s == s[..i] + s[i..];
    }
  }

  /** The body of a `/submit_score` request. */
  datatype Submission = Submission(name: string, score: nat)

  /** The session of one page: the variables the page's closure updates. */
  class Game {
    var currentStreak: nat
    var bestStreak: nat
    var currentScore: nat
    var isPlaying: bool

    function Current(): State
      reads this
    {
      State(currentStreak, bestStreak, currentScore, isPlaying)
    }

    ghost predicate Valid()
      reads this
    {
      Invariant(Current())
    }

    /** Page load: no streak, no score, no round in progress. */
    constructor ()
      ensures Valid() && Current() == Initial
    {
      currentStreak, bestStreak, currentScore, isPlaying := 0, 0, 0, false;
    }

    /**
     * A click on a move card: ignored while a round is pending, otherwise it
     * starts a round and sends the move to `/play`.
     */
    method ClickMove(move: string) returns (request: Option<string>)
      requires Valid()
      modifies this
      ensures Valid()
      ensures old(isPlaying) ==> request == None && Current() == old(Current())
      ensures !old(isPlaying) ==> request == Some(move) && Current() == old(Current()).(isPlaying := true)
    {
      if isPlaying {
        return None;
      }
      var sent := PlayRound(move);
      request := Some(sent);
    }

    /** `playRound`: marks the round as pending and sends the move. */
    method PlayRound(move: string) returns (request: string)
      requires Valid()
      modifies this
      ensures Valid()
      ensures request == move
      ensures Current() == old(Current()).(isPlaying := true)
    {
      isPlaying := true;
      request := move;
    }

    /** The `.catch` of the `/play` call: the round is abandoned. */
    method RoundFailed()
      requires Valid()
      modifies this
      ensures Valid()
      ensures Current() == old(Current()).(isPlaying := false)
    {
      isPlaying := false;
    }

    /** `resolveRound`: scores the round the server decided. */
    method ResolveRound(winner: string)
      requires Valid()
      modifies this
      ensures Valid()
      ensures Current() == Resolve(old(Current()), winner)
      ensures winner == "player" ==>
        currentStreak == old(currentStreak) + 1 && currentScore == old(currentScore) + 10
      ensures winner == "bot" ==>
        currentStreak == 0 && currentScore == if old(currentScore) >= 5 then old(currentScore) - 5 else 0
      ensures winner != "player" && winner != "bot" ==>
        currentStreak == old(currentStreak) && currentScore == old(currentScore)
      ensures bestStreak >= old(bestStreak) && bestStreak >= currentStreak
      ensures !isPlaying
    {
      if winner == "player" {
        currentStreak := currentStreak + 1;
        currentScore := currentScore + 10;
      } else if winner == "bot" {
        currentStreak := 0;
        currentScore := if currentScore >= 5 then currentScore - 5 else 0;
      }
      if currentStreak > bestStreak {
        bestStreak := currentStreak;
      }
      isPlaying := false;
    }

    /**
     * The save-score button: the name dialog opens only while a streak is
     * running, and at that moment there are at least ten points to save.
     * The score is read again when the name is confirmed; see
     * `SaveWhileRoundPending`.
     */
    method SaveScoreClicked() returns (openDialog: bool)
      requires Valid()
      ensures openDialog <==> currentStreak > 0
      ensures openDialog ==> currentScore >= 10
    {
      openDialog := currentStreak > 0;
    }

    /**
     * `submitScore`: nothing is sent for a blank name; otherwise the trimmed
     * name is sent with the session score (not a streak).
     */
    method SubmitScore(nameInput: string) returns (request: Option<Submission>)
      ensures request == None <==> Blank(nameInput)
      ensures request.Some? ==> request.value.score == currentScore
      ensures request.Some? ==> request.value.name == Trim(nameInput) && request.value.name != []
    {
      var name := Trim(nameInput);
      TrimEmptyIffBlank(nameInput);
      if name == [] {
        return None;
      }
      request := Some(Submission(name, currentScore));
    }
  }

  /**
   * The save button has no guard on a pending round: a round started before
   * the dialog opened can end in a loss before the name is confirmed, and the
   * lower score is what gets sent.
   */
  method SaveWhileRoundPending() returns (sent: Option<Submission>)
    ensures sent == Some(Submission("Ada", 5))
  {
    var g := new Game();
    var request := g.ClickMove("rock");
    g.ResolveRound("player");
    request := g.ClickMove("rock");
    assert request == Some("rock");
    var open := g.SaveScoreClicked();
    assert open && g.currentScore == 10;
    g.ResolveRound("bot");
    assert g.currentScore == 5;
    sent := g.SubmitScore("Ada");
    assert !Blank("Ada") by { assert !IsWhitespace("Ada"[0]); }
    assert Trim("Ada") == "Ada" by {
      assert TrimStart("Ada") == "Ada";
      assert TrimEnd("Ada") == "Ada";
    }
  }
}
