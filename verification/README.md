# Pig dice game — Dafny model

This project models the game engine of a console Pig game (`pig.py`). Players
take turns. In a turn a player repeatedly chooses to roll the die or to hold.
A roll of 2–6 adds to the turn total. A roll of 1 loses the turn total and
ends the turn. Holding banks the turn total into the player's score and ends
the turn. Either way the turn then passes to the next player, cyclically.
Turns are played while every score is below the winning score of 100. The
winner is then the player with the highest score, the first one on ties, and
the game resets for another round.

The model is purely functional:

- `PlayerNames` (names.dfy): decimal rendering with its inverse. It builds the
  default names `Player 1`, `Player 2`, … and shows that they are pairwise
  distinct.
- `GameState` (game.dfy): the `Player` and `Game` records and the state
  operations that do not involve dice. These are construction, `SwitchTurn`,
  `BankPoints`, `Winner` and `ResetGame`.
- `Turn` (turn.dfy): one turn. The console input becomes a finite list of
  `Event`s: `Roll(face)` carries the value the die showed, and there are also
  `Hold` and `Other`. `TurnStep` is the state machine for one event. `RunTurn`
  folds it over the list from an ephemeral turn total. `PlayTurn` is one call
  of `play_turn`.
- `GameLoop` (loop.dfy): one call of `play_game`. It plays turns while the
  guard holds, picks the winner and resets.

A round ends in one of two ways. `Won` means the guard failed. `Stalled`
means the event list ran out during a turn, where the program would be
waiting at the prompt.

Two points about the program's behaviour that the model keeps as they are:

- The constructor does not reject a non-positive player count. `NewGame`
  accepts any count and produces an empty roster for a count below 1. Such a
  game fails `Valid`. Every operation that would crash on it in the program
  (`%` by zero, indexing an empty list) requires at least one player.
- The winning score is the constant 100. It is not a construction parameter.

## Model

| member | source | states |
|---|---|---|
| PlayerNames.Decimal | pig.py:25 | the decimal rendering of a number is a non-empty string of digits with no leading zero except for 0 itself |
| PlayerNames.PlayerName | pig.py:25 | the default name at zero-based position i is `Player ` followed by digits without a leading zero that read back as i + 1 |
| PlayerNames.ParseDecimalOfDecimal | pig.py:25 | reading back the decimal rendering of the number in a player's name gives the number again |
| PlayerNames.PlayerNamesDistinct | pig.py:25 | two default names `Player {i+1}` are equal exactly when the positions are equal |
| GameState.ResetScore | pig.py:18-19 | a reset player keeps their name and has score 0 |
| GameState.ResetScoreIdempotent | pig.py:18-19 | resetting a player twice is the same as resetting once |
| GameState.PlayerCount | pig.py:25 | a constructor argument n yields n players when n >= 1 and none otherwise, as Python's `range(n)` does |
| GameState.NewGame | pig.py:23-27 | a new game has max(n, 0) players named `Player 1`..`Player n` with score 0, the first player to move and a winning score of 100; it is valid exactly when n >= 1 |
| GameState.NewGameNamesDistinct | pig.py:25 | no two players of a new game share a name |
| GameState.SwitchTurn | pig.py:30-31 | switching keeps the players, lands on an index in [0, n), moves to i + 1 below the last player and wraps the last player to 0 |
| GameState.SwitchTurnIsModulo | pig.py:31 | the new index is exactly `(i + 1) % n`, as the program computes it |
| GameState.SwitchTurnUndoneByPrevious | pig.py:30-31 | the player who moved before the new index is the one whose turn just ended |
| GameState.SwitchTimesCurrent | pig.py:30-31 | after k <= n switches the index is i + k, less n if that passes the last player |
| GameState.SwitchTurnFullCycle | pig.py:30-31 | n switches bring the turn back to the same player |
| GameState.SwitchTimesAdd | pig.py:30-31 | a + b switches are a switches followed by b more |
| GameState.SwitchTimesModulo | pig.py:30-31 | after any number k of switches the index is `(i + k) % n` |
| GameState.BankPoints | pig.py:52 | holding adds exactly the points to the current player's score; the roster and every other player are unchanged |
| GameState.Winner | pig.py:66 | the winner has a score no lower than anyone's, and every player before it has a strictly lower score (first maximum) |
| GameState.WinnerUnique | pig.py:66 | the first-maximum index is unique, so it fully determines the winner |
| GameState.ResetGame | pig.py:72-75 | reset keeps the number of players, the names and the winning score, sets every score to 0 and gives the first player the move |
| GameState.ResetGameIdempotent | pig.py:72-75 | resetting twice is the same as resetting once |
| GameState.ResetGameValid | pig.py:72-75 | a reset game with at least one player satisfies the state invariant |
| GameState.ResetGameIsNewGame | pig.py:72-75 | resetting any game that kept a new game's roster gives back exactly that new game |
| Turn.TurnStep | pig.py:41-56 | a roll of 1 busts; a roll of 2..6 continues with the turn total raised by exactly the face; hold banks exactly the turn total; other input continues with the turn total unchanged |
| Turn.RollPoints | pig.py:10 | the sum of rolled die values is never negative, and is zero exactly when nothing was rolled |
| Turn.RunTurn | pig.py:36-56 | the turn ends at the first hold or roll of 1; a hold banks the starting total plus every value rolled before it; with no ending event the turn is still open with that total |
| Turn.RunTurnStopsAtFirstEnd | pig.py:39-56 | conversely, given the first ending event, the turn busts or banks exactly there |
| Turn.OtherIsIgnored | pig.py:55-56 | an unrecognised input only consumes one event; the outcome and the turn total are unchanged |
| Turn.PlayTurn | pig.py:34-58 | a turn completes exactly when an ending event occurs; it passes the turn on once; only the current player's score changes; it rises by the rolled sum on a hold and not at all on a bust |
| Turn.HoldWithNothingRolled | pig.py:51-54 | a hold with nothing rolled before it in the turn (only unrecognised input) banks 0: the turn passes on, no score changes, and the events after the hold are left unread |
| Turn.ExampleBustTurn | pig.py:44-47 | two players: rolls 5, 4, 1 leave both scores at 0 and pass the turn to the second player |
| Turn.ExampleHoldTurn | pig.py:48-54 | two players: rolls 6, 6 and a hold give the first player 12 and pass the turn to the second player |
| GameLoop.AllBelowIffWinnerBelow | pig.py:63 | the loop guard holds exactly when the winner's (highest) score is below the winning score |
| GameLoop.PlayGame | pig.py:61-69 | a turn is played exactly while every score is below the winning score; a won round ends with some score at the target; scores never decrease; the winner is the first maximum; the state left for the next round has the same names, zero scores and the first player to move; a stalled round has a non-negative turn total in progress |
| GameLoop.PlayGameTurnOrder | pig.py:58 | at the end of a round the index has advanced once per completed turn |
| GameLoop.WinnerTookLastTurn | pig.py:63-66 | from a state where all scores are below the target, the winner is the player who took the last turn; only that player has reached the target, so the winner is never decided by a tie |
| GameLoop.RoundLeavesNewGame | pig.py:69 | a round started from a new game leaves exactly a new game for the next round |

## Left out

- The `Die` class, `random.seed(0)` and `random.randint` (pig.py:5-10): the die is not modelled. Each roll event carries the value shown as a `DieFace` in 1..6.
- Console I/O (every `print` and `input`) and the `.strip().lower()` normalisation: the answers to the prompt are abstracted to the events `Roll`, `Hold` and `Other`.
- `argparse` and the outer play-again loop (pig.py:78-88): these are command-line plumbing.
- Termination of `play_turn` and `play_game`: the program waits for unbounded user input. A turn reads a finite event list, and a round that runs out of events is reported as `Stalled`. Nothing is proved about whether play ever ends.
- Games with no players: the program crashes in `switch_turn` (`%` by zero) and `play_turn` (empty list). The turn and round operations therefore require at least one player.
- GameState.SwitchTurn: requires the current index to be in range. The program's `%` would also normalise an out-of-range index, but the index never leaves [0, n): it starts at 0 and only `switch_turn` and `reset_game` change it. Python's `%` floors while Dafny's is Euclidean; they agree for the positive divisor.
- Python integers are unbounded, and so are Dafny's; no width or wrap-around is involved.
