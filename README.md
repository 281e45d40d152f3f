# Quiz Masters: the turn-and-scoring state machine

A Dafny model of the `QuizGame` component of a local-multiplayer trivia
quiz (`src/App.tsx`). Two to eight players join on a setup screen, take
turns answering eight multiple-choice questions drawn from a fixed bank of
eighteen under a fifteen-second clock, score one point per correct answer,
and end on a leaderboard sorted by score.

The model has one module per concern of the component:

- `Options`: `Option<T>`, standing for the source's `number | null`.
- `Catalog`: the question bank `QUIZ_QUESTIONS`, the colour palette
  `PLAYER_COLORS` (colours are abstract tags), and `Deal`, the bank
  reordered by a shuffle and cut to its first eight entries.
- `Roster`: players, `String.prototype.trim`, the filter used by
  `removePlayer`, and crediting one point to one seat.
- `Leaderboard`: `getSortedPlayers`, a stable sort by descending score.
  It is computed on seat indices by insertion sort. It is proved to be the
  only ordering that is by descending score with ties in roster order, so
  it agrees with whatever stable sort the JavaScript engine uses.
- `Progress`: the progress bar's numerator and denominator, and the turn
  order that `nextQuestion` follows.
- `Session`: the class `QuizGame`. Its fields are the component's state
  slots (`gameState`, `players`, `currentPlayerIndex`,
  `currentQuestionIndex`, `gameQuestions`, `showAnswer`, `selectedAnswer`,
  `timeLeft`). Each handler is a method that updates them in place.

The class invariant `Valid()` says:

- the roster never exceeds eight;
- the clock stays within [0, 15] and is full during setup;
- while playing, both turn indices are in range;
- after the game the answer is shown;
- no player has more points than turns of theirs that have been revealed.

The last point is what "each turn scores at most once" amounts to. The
answer is only submitted while hidden, and only `nextQuestion` hides it
again, moving to a later turn.

Callers' obligations are taken from the call sites, since the handlers
themselves check neither the phase nor whether the answer is shown:

- `removePlayer` and `startGame` are only reachable from the setup screen.
- `handleAnswer` is only called with the answer hidden (the timer effect
  and `!showAnswer && handleAnswer(index)` on the option buttons).
- `nextQuestion` is only offered while playing with the answer shown.

A new player's colour is `PLAYER_COLORS[players.length]` (src/App.tsx:157),
not the first unused one, so after a removal two players can share a
colour. The model follows the code.

## Model

| member | source | states |
|---|---|---|
| `Catalog.BankWellFormed` | src/App.tsx:23-114 | The bank has 18 questions, each with exactly four options and a correct index naming one of them. |
| `Catalog.BankDistinct` | src/App.tsx:23-114 | No two bank questions share a prompt. |
| `Catalog.PaletteCoversRoster` | src/App.tsx:116-119 | The palette has eight pairwise-distinct colours, one per seat of a full roster. |
| `Catalog.Deal` | src/App.tsx:169 | For any shuffle (a permutation of bank positions), the dealt questions are `min(8, 18) = 8` bank entries, entry `i` being the bank question at shuffled position `i`, and no question is dealt twice. |
| `Roster.TrimStart` | src/App.tsx:153-155 | Leading white space is dropped: the result is a suffix of the input, everything dropped is white space, and the result does not start with white space. |
| `Roster.TrimEnd` | src/App.tsx:153-155 | Trailing white space is dropped: the result is a prefix of the input, everything dropped is white space, and the result does not end with white space. |
| `Roster.Trim` | src/App.tsx:153-155 | A non-empty trimmed name neither starts nor ends with white space. |
| `Roster.TrimSlice` | src/App.tsx:153-155 | The trimmed name is the contiguous slice of the input between an all-white prefix and an all-white suffix. |
| `Roster.TrimEmptyIff` | src/App.tsx:153 | The trimmed name is empty if and only if the input is entirely white space, which is exactly when `addPlayer` rejects the name. |
| `Roster.TrimIdempotent` | src/App.tsx:155 | Trimming a stored (already trimmed) name again changes nothing. |
| `Roster.WithoutRemovesOne` | src/App.tsx:163-165 | `Without`, the filter `(_, i) => i !== index`: filtering out position `index` yields the roster with exactly that entry removed and the rest in their order; an out-of-range index removes nothing. |
| `Roster.Credit` | src/App.tsx:184-187 | Crediting seat `i` raises that player's score by exactly one, keeps their name and colour, and leaves every other seat as it was. |
| `Roster.CreditAddsOnePoint` | src/App.tsx:184-187 | A correct answer raises the table's total score by exactly one. |
| `Leaderboard.Insert` | src/App.tsx:223 | Inserting a seat into a list of seats adds exactly that seat. |
| `Leaderboard.InsertKeepsRanked` | src/App.tsx:223 | Inserting a new seat into a list ordered by (score descending, seat ascending) keeps it ordered. |
| `Leaderboard.InsertAddsOnePlayer` | src/App.tsx:223 | Inserting seat `k` adds exactly the player `ps[k]` to the players listed. |
| `Leaderboard.Ranking` | src/App.tsx:223 | The sorted seat list holds each seat of the roster exactly once. |
| `Leaderboard.RankingIsRanked` | src/App.tsx:223 | The sorted seat list is ordered by score descending, with ties by seat ascending. |
| `Leaderboard.RankingKeepsPlayers` | src/App.tsx:223 | The sorted list names the same multiset of players as the roster. |
| `Leaderboard.SortedPlayersSpec` | src/App.tsx:222-224 | `SortedPlayers` (`getSortedPlayers`): the leaderboard is a permutation of the roster, in non-increasing score order, in which equal scores keep their roster order. The roster is a value and is left as it was. |
| `Leaderboard.RankedUnique` | src/App.tsx:222-224 | Two lists of the same seats, both ordered by score descending with ties by seat, are equal. |
| `Leaderboard.RankingIsTheStableSort` | src/App.tsx:222-224 | Any stable descending sort of the roster yields exactly the model's leaderboard. |
| `Leaderboard.TieKeepsRosterOrder` | src/App.tsx:222-224 | Two players finishing level on one point each are listed in roster order. |
| `Progress.TurnNumberInRange` | src/App.tsx:146-148 | While playing, the progress numerator `TurnNumber` (`qi*P + pi + 1`) lies in `[1, TotalTurns]`, where `TotalTurns` is `Q*P`. |
| `Progress.NextTurnAdvancesByOne` | src/App.tsx:191-208 | `NextTurn`, the branch order of `nextQuestion`: the next turn stays in range and has progress numerator exactly one higher. The game ends exactly when the numerator equals the denominator (100%). |
| `Session.QuizGame.constructor` | src/App.tsx:122-131 | The component starts in setup with an empty roster, no questions, both indices 0, a full clock, the answer hidden and no selection. |
| `Session.QuizGame.ProgressFraction` | src/App.tsx:144-150 | While playing, the progress bar's numerator is between 1 and its denominator, which is questions times players. |
| `Session.QuizGame.AddPlayer` | src/App.tsx:152-161 | A name whose trimmed form is non-empty, joining a roster of fewer than 8, is appended with score 0 and colour `PLAYER_COLORS[old length]`. Otherwise the roster is unchanged. Nothing else changes, and the roster never exceeds 8. |
| `Session.QuizGame.RemovePlayer` | src/App.tsx:163-165 | The roster loses exactly entry `index` and keeps the others in order; an out-of-range index changes nothing; nothing else changes. |
| `Session.QuizGame.StartGame` | src/App.tsx:167-178 | With fewer than 2 players nothing changes. Otherwise the phase becomes playing with both indices 0, a 15-second clock, the answer hidden and no selection. The 8 questions are the dealt ones, pairwise distinct. |
| `Session.QuizGame.HandleAnswer` | src/App.tsx:180-189 | Reveals the answer and records the selection. The current player gains exactly one point if and only if the selection is the correct index (`IsCorrect`, the comparison at src/App.tsx:184), and nobody else's score changes. A null selection never scores. |
| `Session.QuizGame.SubmitAnswer` | src/App.tsx:362-363 | A click while the answer is hidden acts as `handleAnswer(index)`; a click after the reveal changes nothing, so a turn scores at most once. |
| `Session.QuizGame.Tick` | src/App.tsx:134-141 | While playing with the answer hidden and time left, the clock drops by exactly one and nothing else changes. At 0 with the answer hidden, it acts as `handleAnswer(null)`: it reveals the answer with no selection and changes no score. Otherwise nothing changes. The clock never goes negative. |
| `Session.QuizGame.NextQuestion` | src/App.tsx:191-208 | Advances to the next player on the same question, else to the first player on the next question (hiding the answer, clearing the selection, resetting the clock to 15), else to results. Indices stay in range, progress rises by exactly one turn, and results come exactly at 100%. |
| `Session.QuizGame.ResetGame` | src/App.tsx:210-220 | From any phase, restores the initial state: setup, empty roster, no questions, indices 0, full clock, answer hidden, no selection. |

## Left out

- Rendering: the JSX, CSS classes, icons and UI component imports (src/App.tsx:2-7, 226-463). They are presentation only. Their call sites are kept as the methods' preconditions.
- The `newPlayerName` text field and its `maxLength={20}` (src/App.tsx:127, 258). `AddPlayer` takes the name as a parameter instead, and clearing the field afterwards is not modelled.
- The stored `gameProgress` slot and its floating-point percentage (src/App.tsx:131, 148). The model computes the integer numerator and denominator on demand (`ProgressFraction`). It does not model that the slot keeps its last value on the results screen.
- `Math.random` and the comparator-based shuffle (src/App.tsx:169). Their outcome is an arbitrary permutation of bank positions passed to `StartGame`. The bias of that shuffle is not modelled.
- `setTimeout`/`clearTimeout` and React's effect scheduling (src/App.tsx:134-141). A second of the clock is the discrete event `Tick`. The zero-time timeout, which React runs as soon as the clock shows 0, is also taken on a `Tick`. Timer cancellation is not modelled.
- HandleAnswer: the source increments the score on a player object that the previous roster array shares (src/App.tsx:185-186). The model replaces the roster entry instead. Nothing else holds the old array, so no caller can observe the difference.
- Trim: the white-space set is the ECMAScript WhiteSpace and LineTerminator set with the Unicode space separators of Unicode 15 written out. A later Unicode version that adds a space separator is not followed.
- Colour values: the palette's CSS class names are abstract colour tags.
- String encoding: names are sequences of Unicode scalar values, while JavaScript strings are sequences of UTF-16 code units. This does not change `trim`, since every white-space code point is in the Basic Multilingual Plane.
