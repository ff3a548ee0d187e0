# Memory game: a Dafny model of the game logic

The repository is a browser memory-matching game for 2–4 local players. All of its
logic lives in one React component, `components/MemoryGame.tsx`. This project models
that logic as pure functions over one immutable state record. The logic has four parts:

- **Deck construction** (`initGame`): the current level's symbols are doubled and
  shuffled, and the card at position `i` gets `id = i`. Then all round state is reset
  and one scoreless player is built per entered name.
- **The turn engine** (`handleCardClick`): a guard, then the clicked card is flipped.
  On the second card of a pair the move counter goes up. A matching pair is credited
  to the player in turn and moved to `matched`. A missed pair stays face up until a
  `setTimeout` callback turns it back and passes the turn on.
- **Setup**: the player count is clamped to 2–4, names are edited seat by seat, and
  start is allowed once every name is non-blank after `trim()`. The difficulty
  buttons appear only on the board, where choosing another level deals a new round.
- **The finish banner**: players are sorted by matches, highest first, and the first
  entry gets the crown only when it beats the second.

Modules, one per part:

- `Seqs` (seqs.dfy): repeat-free lists of positions and their sizes.
- `JsString` (js_string.dfy): JavaScript's `trim` and the white-space set it strips.
- `Shuffling` (shuffle.dfy): the shuffle, as a permutation chosen by random draws.
- `Levels` (levels.dfy): the three difficulty levels.
- `GameState` (game_state.dfy): the state record, the round invariant `Valid`, `Deal`
  and `InitGame`.
- `Turns` (turns.dfy): `CardClick` and the mismatch callback `ResolveMismatch`.
- `SetupScreen` (setup.dfy): the setup handlers, start, and difficulty selection.
- `Rounds` (rounds.dfy): play as a sequence of events, with waiting callbacks queued.
- `Ranking` (ranking.dfy): the banner's ordering and crown.

Randomness and time are parameters. The shuffle's random comparator becomes a
sequence of draws (`Shuffle(xs, draws)`). Every draw sequence gives a permutation,
and every permutation comes from some draw sequence. The one-second delay becomes an
explicit `Fire` event that runs the oldest waiting callback.

Behaviour of the code worth knowing:

- The mismatch callback is never cancelled. A restart or a difficulty change during
  the delay leaves it queued. When it fires, it clears `flipped` and sets
  `currentPlayerIndex` in the new round (`Rounds.RestartKeepsCallback`,
  `Rounds.StaleCallbackHitsNewRound`).
- The component mounts with an empty name list. `[].every(...)` is true, so start
  works at once and deals a round with no players (`SetupScreen.ImmediateStartSeatsNobody`).
  The turn engine would then index a missing player, and the rotation would take a
  remainder modulo 0. So every turn-engine transition requires `Seated`: at least one
  player, and the seat in turn exists.
- With a single player there is no `players[1]`. The comparison with `undefined` is
  false, so no crown is shown.
- Choosing the difficulty already in force deals nothing, because the effect's
  dependencies do not change.
- The setup screen has no difficulty buttons, so the first round is always dealt at
  the default level, Medium.

## Model

| member | source | states |
|---|---|---|
| `JsString.Trim` | components/MemoryGame.tsx:124 | the trimmed name is the name with white space removed from its two ends and nothing else removed; it has no white space at either end, and it is non-empty exactly when the name has a visible character |
| `Shuffling.Shuffle` | components/MemoryGame.tsx:62-63 | whatever the random draws, the shuffled deck is a permutation of the doubled symbol list |
| `Shuffling.DrawsFor` | components/MemoryGame.tsx:62-63 | for every permutation of the doubled list there are draws under which the shuffle produces it, so the model does not restrict the shuffle |
| `Levels.Config` | components/MemoryGame.tsx:22-38 | each level lists distinct symbols: 6 (easy), 8 (medium), 10 (hard) |
| `GameState.Deal` | components/MemoryGame.tsx:60-69 | the deck has twice as many cards as symbols, each card's id is its position, and its symbols are exactly two copies of the list |
| `GameState.FreshDeckPairs` | components/MemoryGame.tsx:60-69 | with distinct symbols, every symbol is on exactly two cards and no card has a symbol from outside the level |
| `GameState.LevelDeck` | components/MemoryGame.tsx:22-38 | the levels deal 12, 16 and 20 cards, each symbol of the level twice |
| `GameState.FreshPlayers` | components/MemoryGame.tsx:76 | one player per name, in seat order, each with 0 matches |
| `GameState.InitGame` | components/MemoryGame.tsx:59-77 | a fresh deck for the current level; flipped and matched empty; 0 moves; no winner; seat 0 to play; scoreless players from the names; the round invariant holds |
| `Turns.Credit` | components/MemoryGame.tsx:91-93 | the player in turn gets one more match, every other player is unchanged, and the total score rises by one |
| `Turns.PairFound` | components/MemoryGame.tsx:89-100 | a matching pair goes to `matched`, `flipped` empties, the move is counted, the player in turn is credited one match under the same name (the players become `Credit` of the old ones) and keeps the turn, and the round is won exactly when `matched` covers the deck |
| `Turns.PairMissed` | components/MemoryGame.tsx:101-107 | a missed pair stays face up with the move counted; scores, matches and the turn are unchanged |
| `Turns.CardClick` | components/MemoryGame.tsx:79-109 | a blocked click is a no-op; the first card of a pair counts no move; the second counts exactly one; match and mismatch have the effects above; a callback is scheduled exactly on a mismatch; `matched` only grows; the round invariant (at most two flipped, flipped and matched disjoint) is kept |
| `Turns.ResolveMismatch` | components/MemoryGame.tsx:103-106 | the callback empties `flipped` and sets the turn to the captured seat plus one, modulo the captured player count; scores, matches, moves, names, level and player count are unchanged |
| `Turns.ClicksWaitForMismatch` | components/MemoryGame.tsx:80 | while a missed pair is face up every click is refused, so the seat the callback captured is still the seat in turn |
| `Turns.MismatchThenResolve` | components/MemoryGame.tsx:101-106 | after a miss and its callback, nothing is flipped and the turn is `(old + 1) mod players`; scores and matches are unchanged and the move is counted |
| `Turns.FinishedRoundIgnoresClicks` | components/MemoryGame.tsx:98-99 | once the round is won, every card is matched and no click changes anything |
| `Turns.MissedPairHiddenAgain` | components/MemoryGame.tsx:232 | after a missed pair's callback both cards are face down again, and a matched card stays face up through any click |
| `SetupScreen.Clamp` | components/MemoryGame.tsx:112 | the player count is in 2..4; values in range are kept, values below go to 2, values above go to 4 |
| `SetupScreen.ChangeNumPlayers` | components/MemoryGame.tsx:111-115 | the count is stored clamped (below 2 gives 2, above 4 gives 4, 2..4 is kept), the names become that many empty strings, and nothing else changes |
| `SetupScreen.ChangeName` | components/MemoryGame.tsx:117-121 | seat i gets the new text, every other seat keeps its own, and nothing else changes |
| `SetupScreen.CanStart` | components/MemoryGame.tsx:124 | start is allowed exactly when every name has a visible character, so it is allowed for an empty list |
| `SetupScreen.StartGame` | components/MemoryGame.tsx:123-127 | the board appears exactly when all names are filled in, with a fresh round for those names and the same level and player count; otherwise nothing changes |
| `SetupScreen.SelectDifficulty` | components/MemoryGame.tsx:53-57 | on the board, picking the current level changes nothing; picking another deals a fresh round at that level for the same names, keeping the player count |
| `SetupScreen.ImmediateStartSeatsNobody` | components/MemoryGame.tsx:45 | from the initial state, start succeeds and deals a round with no players, where the turn engine has no seat to index |
| `SetupScreen.FreshSeatsBlockStart` | components/MemoryGame.tsx:114 | after the player count changes, start is refused until the names are filled in |
| `Rounds.StartedBoardPlayable` | components/MemoryGame.tsx:123-127 | starting with at least one filled-in name gives a board in play, with nothing queued and nothing face up |
| `Rounds.Step` | components/MemoryGame.tsx:79-109 | one click, callback firing, restart or difficulty change keeps the board in play, with every queued callback holding the current player count |
| `Rounds.Run` | components/MemoryGame.tsx:80-86 | over any sequence of events, at most two cards are flipped, flipped and matched stay disjoint, and the scores add up to the pairs found |
| `Rounds.MissQueuesCallback` | components/MemoryGame.tsx:103-106 | a missed pair queues a callback holding the seat in turn and the player count |
| `Rounds.FirstFlip` | components/MemoryGame.tsx:82-83 | with nothing flipped, a click on an unmatched card flips just that card and queues nothing |
| `Rounds.BoardStepInStep` | components/MemoryGame.tsx:80-106 | a click or a firing keeps at most one callback queued, exactly while a missed pair is face up and holding the seat in turn; a firing passes the turn to the next seat |
| `Rounds.BoardRunInStep` | components/MemoryGame.tsx:80-106 | over any run of clicks and firings with no restart or level change, the queue stays in that state, so the callback always captured the seat still in turn |
| `Rounds.RestartKeepsCallback` | components/MemoryGame.tsx:216 | a restart after a miss deals a fresh round, but the old callback is still queued |
| `Rounds.StaleCallbackHitsNewRound` | components/MemoryGame.tsx:103-106 | a leftover callback fired in a new round turns back that round's flipped card and moves the turn to the seat after the captured one |
| `Ranking.RankSeats` | components/MemoryGame.tsx:253 | the banner lists every seat once, by matches from most to fewest, with equal scores in seat order |
| `Ranking.Rank` | components/MemoryGame.tsx:252-254 | the banner's players are the players in ranking order, with matches never rising down the list |
| `Ranking.OrderedUnique` | components/MemoryGame.tsx:253 | two listings of the same seats, both ordered by matches and then seat, are the same listing |
| `Ranking.AnyStableSortAgrees` | components/MemoryGame.tsx:253 | any stable sort by descending matches yields the listing of `RankSeats` |
| `Ranking.CrownIffSoleLeader` | components/MemoryGame.tsx:256 | the crown is shown exactly when there are at least two players and one has strictly more matches than all others, and it goes to that player |

## Left out

- Rendering: the JSX, Tailwind class strings and card reveal styling. A card counts as shown exactly when its id is in `flipped` or `matched` (`GameState.Shown`).
- `app/layout.tsx`: it holds only page metadata and the HTML shell.
- React mechanics. `useState` batching is not modelled, and neither is the effect as such. Start, restart and a difficulty change are modelled as dealing a round directly.
- The uniformity of the shuffle. `sort(() => Math.random() - 0.5)` is modelled only as some permutation.
- Wall-clock timing of `setTimeout`. Firing is a discrete event, and callbacks fire oldest first.
- `Card.isFlipped` and `Card.isMatched`: no handler ever sets them, so `Card` keeps only `id` and `content`.
- `SetupScreen.Clamp` and `SetupScreen.ChangeNumPlayers`: they take an integer, so `Number()` of non-numeric text (NaN) and fractional input (which makes `Array(n)` throw) are not modelled.
- `SetupScreen.ChangeName`: it requires the seat to be at most one past the end of the name list. Writing further out leaves holes in a JavaScript array, which `every` skips; the holes are not modelled.
- `Turns.CardClick`: it requires at least one player and an existing seat in turn. With no players the code reads a missing player (a crash on a match), and the rotation takes a remainder modulo 0.
- `SetupScreen.SelectDifficulty`: it requires a round in play, because the level buttons are rendered only on the board (MemoryGame.tsx:180-194).
- `Rounds.Step`: a tap on an id outside the deck changes nothing. The page renders no such card, so the code never receives one.
- The banner's `sort` reorders the `players` state array in place during render. The model ranks a copy. The in-place `matches++` on a shared player object at line 92 is modelled as a fresh record.
- The difficulty labels and grid class strings are carried in `Levels.Config` but are used only by the rendering.
