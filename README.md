# Rock-paper-scissors: round rule, leaderboard and session scoring

This project models the core of a small browser rock-paper-scissors game
with a Flask back end, and proves properties of that model.

- **Round rule** (`play.dfy`, module `Play`): the `/play` handler picks the
  bot's move from `rock`, `paper`, `scissors` and decides the winner with an
  if/elif chain on strings. The player's move is taken from the request
  unchecked, so the model takes it as a `string`. Any value that is not one
  of the three moves never equals the bot's move and always loses. The chain
  is proved equal to a separate definition of the game: a move beats the move
  one step before it in the cycle rock, paper, scissors. The random choice
  becomes an arbitrary choice from the three moves.
- **Leaderboard** (`leaderboard.dfy`, module `Leaderboard`): the file of
  `{name, score}` records is an in-memory sequence in class `Store`.
  `/leaderboard` copies it into an array. It sorts the copy in place with a
  stable insertion sort by descending score and returns at most ten entries.
  The store itself is left unchanged. The sort is proved sorted, a
  permutation and stable: entries with equal scores keep their stored order,
  as Python's `list.sort` with `reverse=True` does. `/submit_score` rejects a
  missing or empty name and a missing score. Otherwise it appends exactly one
  entry. A score of 0 is accepted.
- **Session** (`session.dfy`, module `Session`): the page's four variables
  `currentStreak`, `bestStreak`, `currentScore` and `isPlaying` are fields of
  class `Game`. Its methods model the move-click guard, the round start, the
  recovery after a failed `/play` call, the scoring of a resolved round, the
  save-score gate and the name check before a score is submitted. The
  function `Resolve` gives the scoring rule on values. `Rounds` folds it over
  a series of rounds. The object invariant is
  `bestStreak >= currentStreak && currentScore >= 10 * currentStreak`. The
  second conjunct shows that when the save dialog opens, which it does
  only while `currentStreak > 0`, the score is at least 10. The score sent
  is read later, when the name is confirmed. The save button does not check
  for a pending round, so a round started before the dialog opened can end
  in a loss first and cut the score to 5 (`SaveWhileRoundPending`).
- **Protocol** (`protocol.dfy`): how the page scores the server's winner
  strings, and where a saved score lands on the refreshed leaderboard.

The server sends the winner as `"draw"`, `"player"` or `"bot"`. The page's
scoring does not depend on the draw's spelling: anything other than
`"player"` or `"bot"` is scored as a draw.

The save-score gate tests the streak, not the score. After a loss, the score
may still be positive while the streak is 0. Saving is then refused, and the
message says "Score at least 1 point to save!". The model keeps this
behaviour as written.

## Model

| member | source | states |
|---|---|---|
| `Play.Winner` | rps_game/app.py:41-49 | draw exactly when the player's string parses to the bot's move; player wins exactly when it parses to a move that beats the bot's move under the cyclic reference order; the bot wins otherwise, including for every string that is not a move |
| `Play.Play` | rps_game/app.py:35-54 | the bot's move is always "rock", "paper" or "scissors"; the winner string is the rule's outcome, "draw" exactly when the two moves are equal, and "bot" for any invalid player move |
| `Play.WinnerAntisymmetric` | rps_game/app.py:42-49 | on valid moves, (a, b) gives "player" exactly when (b, a) gives "bot", and a draw exactly when a = b |
| `Play.BeatsExactlyOne` | rps_game/app.py:44-47 | each move beats exactly one move and is beaten by exactly one move |
| `Play.ParseName` | rps_game/app.py:38 | each move's wire spelling reads back as that move |
| `Leaderboard.SortDescCorrect` | rps_game/app.py:30 | sorting keeps the length, gives scores that never increase, and is a permutation of the stored entries |
| `Leaderboard.SortDescStable` | rps_game/app.py:30 | for every score, the entries with that score appear in the sorted table in their stored order |
| `Leaderboard.SortByScoreDesc` | rps_game/app.py:30 | the in-place sort leaves the array equal to the stable descending sort of its old contents |
| `Leaderboard.InsertNext` | rps_game/app.py:30 | one pass of the in-place sort inserts the next entry into the sorted prefix and leaves the rest of the array alone |
| `Leaderboard.Top` | rps_game/app.py:31 | the response has min(10, n) entries, is sorted by descending score, is a prefix of the sorted table and a sub-multiset of the stored entries |
| `Leaderboard.NewEntryRank` | rps_game/app.py:30-31 | after an entry is appended, the sorted table holds it at index n, where n is the number of earlier entries scoring at least as much; it is listed exactly when n < 10 or an equal entry was already listed, and for n >= 10 the listing is unchanged |
| `Leaderboard.TopBehindTen` | rps_game/app.py:30-31 | an appended entry that at least ten stored entries match or beat leaves the top-ten listing exactly as it was |
| `Leaderboard.Store.constructor` | rps_game/app.py:10-11 | with no file, the stored leaderboard is empty |
| `Leaderboard.Store.GetLeaderboard` | rps_game/app.py:27-31 | returns the top of the stable descending sort of the stored entries and changes nothing |
| `Leaderboard.Store.SubmitScore` | rps_game/app.py:57-70 | succeeds exactly when the name is present and non-empty and the score is present (0 included); success appends exactly one entry {name, score} and keeps the earlier entries; failure changes nothing |
| `Session.Resolve` | rps_game/static/js/script.js:110-138 | a resolved round keeps the invariant, never lowers the best streak, leaves the best streak at least the current streak (raised to it or kept), and ends with no round in progress |
| `Session.RoundsFromInitial` | rps_game/static/js/script.js:110-136 | from a fresh page, the streak is the number of wins since the last loss, the best streak is the longest streak reached, the invariant holds, the score is at most ten per win, and no round is pending after any round |
| `Session.BestStreakMonotone` | rps_game/static/js/script.js:133-136 | over any series of rounds the best streak never decreases and the invariant is kept |
| `Session.WinsThenLoss` | rps_game/static/js/script.js:114-122 | three wins from a fresh page give streak 3, best 3, score 30; a loss then gives streak 0, best 3, score 25 |
| `Session.Trim` | rps_game/static/js/script.js:150 | the trimmed name is a contiguous part of the input with only whitespace cut from both ends, and starts and ends with a non-whitespace character when non-empty |
| `Session.TrimEmptyIffBlank` | rps_game/static/js/script.js:150-151 | the trimmed name is empty exactly when every character typed is whitespace |
| `Session.Game.constructor` | rps_game/static/js/script.js:3-6 | a fresh page has streak 0, best 0, score 0, no round pending |
| `Session.Game.ClickMove` | rps_game/static/js/script.js:33-37 | while a round is pending a click changes nothing and sends nothing; otherwise it sends the move and only sets `isPlaying` |
| `Session.Game.PlayRound` | rps_game/static/js/script.js:70-71 | starting a round sets `isPlaying` and changes no score or streak |
| `Session.Game.RoundFailed` | rps_game/static/js/script.js:96-99 | a failed `/play` call clears `isPlaying` and leaves streak, best streak and score unchanged |
| `Session.Game.ResolveRound` | rps_game/static/js/script.js:102-139 | "player": streak +1 and score +10; "bot": streak 0 and score max(0, score - 5); anything else: streak and score unchanged; best streak raised to the streak if below it, never lowered; `isPlaying` false |
| `Session.Game.SaveScoreClicked` | rps_game/static/js/script.js:40-46 | the name dialog opens exactly when the streak is positive, and then the score is at least 10 |
| `Session.Game.SubmitScore` | rps_game/static/js/script.js:149-160 | nothing is sent exactly when the typed name is blank; otherwise the trimmed, non-empty name is sent with the session score |
| `Session.SaveWhileRoundPending` | rps_game/static/js/script.js:40-46 | a round started before the save click and lost while the dialog is open makes the page send score 5, not the 10 shown when the dialog opened |
| `Protocol.ServerOutcomeScoring` | rps_game/static/js/script.js:110-129 | a server "player" outcome adds one to the streak and ten points, "bot" (including an invalid player move) ends the streak and costs up to five points, "draw" changes neither |
| `Protocol.SubmittedScoreListed` | rps_game/app.py:62-66 | a name the page sends always passes the server's name check, and the refreshed leaderboard lists the saved entry when fewer than ten stored entries score at least as much |

## Left out

- DOM work: element lookups, text, classes and styles, the icon map, `playWinEffect`, `alert`, the modal's show and hide, and the HTML rendering of the leaderboard list (rps_game/static/js/script.js:9-26, 55-68, 74-82, 141-147). These are presentation only.
- Network and timing: the `fetch` calls, promise chains and the 800 ms delay. A successful `/play` call becomes a call of `ResolveRound` with the winner string. A failed one becomes `RoundFailed`. What the page does after a successful `/submit_score` (hide the dialog, reload the list) is not modelled.
- `Session.Game.ResolveRound` takes only the winner. The page never reads the player's move there, and reads the bot's move only to pick its icon (rps_game/static/js/script.js:107).
- JavaScript numbers are doubles. The model's scores and streaks are unbounded naturals, so the loss of precision beyond 2^53 is not modelled.
- `Session.Trim` works on Unicode scalar values. JavaScript's `trim` works on UTF-16 code units. All the whitespace it removes lies in the Basic Multilingual Plane, so the two agree on whitespace.
- Flask routing, `render_template` and `jsonify` (rps_game/app.py:6, 22-24).
- The JSON file: `load_leaderboard` and `save_leaderboard` (rps_game/app.py:9-20) are replaced by the sequence `Store.entries`. A malformed file loads as an empty list, and a later submission then overwrites it with just the new entry. That case is not modelled.
- Randomness: the bot's move is an arbitrary element of the three moves, with no probability distribution.
- JSON value types: the player's move is a string in the model. A non-string value (a number, `null`, a missing field) compares unequal to every move, just as an unknown string does, and so loses. The submitted name is an optional string, where falsy means missing or `""`. Other falsy JSON values (`0`, `false`, `[]`, `{}`) are not represented, nor are truthy non-string names (`5`, `true`, `[1]`), which pass the name check and are stored. A request body that is not a JSON object (`null`, `[]`, a bare string) makes `data.get` raise, and Flask answers with a 500 error (rps_game/app.py:35-36, 58-60); this is not represented either. The score is an optional integer. Fractional scores such as `2.5` (stored and sorted by Python like any number), boolean scores (`true` sorts as 1) and non-numeric scores such as strings are not represented; a string score is stored, and the next sort raises `TypeError` once it is compared with a numeric score.
- The server does not trim names, so a name of spaces only is accepted by `/submit_score`. The model keeps this: only `""` is falsy. The page never sends such a name.
- Concurrency on the server: requests are modelled one at a time. The development server started at rps_game/app.py:73 serves requests in threads, and `submit_score` loads, appends and saves without a lock (rps_game/app.py:65-68). Two overlapping submissions can lose one entry. `save_leaderboard` truncates the file before writing (rps_game/app.py:19-20), so a load during a write can read a partial file, which loads as `[]` (rps_game/app.py:15-16), and a submission holding that `[]` then replaces the whole leaderboard with one entry. `Leaderboard.Store.SubmitScore` keeping the earlier entries holds only for requests served one at a time.
