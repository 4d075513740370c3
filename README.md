# Simon game state machine, verified

A Dafny model of the game logic of SimonSays (`app.js`): a browser memory
game in which the machine flashes an ever-growing sequence of four coloured
pads and the player must repeat it. The model covers the game's module-level
state (`gameSeq`, `userSeq`, `level`, `started`, `playing`, `muted`, `best`)
and the handlers that change it: `startGame`, `resetGame`, `toggleMute`,
`nextLevel`, the flag changes of `playSequence`, `userInput`, `gameOver` and
the key table of `handleKey`.

Two modules:

- `Simon` (`simon.dfy`) gives the state as a value (`State`) and one pure
  transition per handler (`Start`, `Reset`, `ToggleMute`, `NextLevel`,
  `BeginPlayback`, `EndPlayback`, `Judge`/`UserInput`, `GameOver`,
  `HandleKey`). A run of the page is a sequence of `Event`s: clicks, pad
  presses, key presses, and the two things the event loop delivers later,
  the end of a playback (`PlaybackEnd`) and the delayed `nextLevel`
  (`Advance`). A run may deliver those two at any point, stale ones
  included, so the run lemmas cover every order in which the real timers
  can fire. The lemmas state what each handler does and what holds over
  every run: the invariant `level == |gameSeq|` with "the input so far is a
  prefix of the sequence" during a game, the best score as the maximum of
  the ended rounds' scores, growth of the sequence, no input after game over
  until a new start, and mute independence.
- `SimonGame` (`simon_game.dfy`) is the program in its own form: a class
  `Game` whose fields are the module variables and whose methods are the
  handlers, updating the fields in place. Each method states its new state
  field by field and ties it to the matching `Simon` transition through
  `Snapshot()`; `Valid()` is the invariant above, kept by every method.

The random draw of `nextLevel` (`Math.random`) is a `Color` parameter of
`NextLevel` and of `StartGame`. The stored high score is the constructor's
parameter. The asynchronous `playSequence` is two steps: `BeginPlayback`
sets `playing` and returns the flash order, `EndPlayback` clears it. The
one-second `setTimeout(nextLevel, …)` is the `advanceScheduled` result of
`UserInput`; the environment may then call `NextLevel`, which, as in the
code, has no guard.

Facts about the code that the model keeps as they are:

- No pending `nextLevel` is cancelled by `resetGame` or `gameOver`: an
  advance scheduled by a completed level still fires after `resetGame` and
  a new `startGame`, and puts the new game at level two
  (`Simon.StaleAdvanceAfterRestart`).
- `gameOver` reports `level`, so failing on the second press of level two
  scores 2 (`Simon.EndToEnd`).
- A level is recorded as best only when `gameOver` runs; a game ended by
  `resetGame` is never scored (`Simon.RunBest`).
- `resetGame` empties the sequence as well as `startGame`.

## Model

The value-level definitions `Simon.Initial`, `Simon.KeyColor`, `Simon.Start`,
`Simon.Reset`, `Simon.ToggleMute`, `Simon.NextLevel`, `Simon.BeginPlayback`,
`Simon.EndPlayback`, `Simon.Judge`, `Simon.UserInput`, `Simon.GameOver` and
`Simon.HandleKey` carry no contract of their own; the rows below list the
lemmas that specify them. `Initial` is specified by `InitialInv`; `KeyColor` by
`KeyColorInverse`; `Start` by `StartIdempotent`, `StartFromIdle` and `SequenceGrowth`;
`Reset` by `ResetClears`; `ToggleMute` by `ToggleMuteOnlyMute`, `StepIgnoresMuted` and
`MuteIndependence`; `NextLevel` and `BeginPlayback` by `NextLevelGrows`,
`AdvancesGrowSequence` and `GrowthInGame`; `EndPlayback` by `StepPreservesInv`;
`Judge` by `JudgeMeaning` and `ExtraPressIsWrong`; `UserInput` by
`InputIgnoredOutOfTurn`, `InputRecordsPress` and `UserInputPreservesInv`; `GameOver` by
`GameOverRecordsBest`, `StepBest` and `RunBest`; and `HandleKey` by `KeyColorInverse`
and `StepBest`. The class methods in `SimonGame.Game` are each tied to one of these
definitions.

| member | source | states |
|---|---|---|
| Simon.KeyColorInverse | app.js:151-154 | exactly the keys q, w, a, s select a pad, each a different one (red, blue, green, orange); every other key selects none |
| Simon.StartIdempotent | app.js:37-38 | startGame while a game is on changes nothing, so a second startGame equals one |
| Simon.StartFromIdle | app.js:37-42 | startGame from idle gives started, playing, level 1, a one-colour sequence and empty input, keeping muted and best |
| Simon.NextLevelGrows | app.js:60-68 | nextLevel adds exactly one level and one colour, keeps the old sequence as a proper prefix, clears the input, starts a playback and touches nothing else |
| Simon.ResetClears | app.js:46-50 | resetGame from any state stops the game and empties sequence, input and level; playing, muted and best are untouched |
| Simon.ToggleMuteOnlyMute | app.js:55-56 | toggleMute flips muted and changes no other field; two toggles cancel |
| Simon.GameOverRecordsBest | app.js:100-114 | gameOver sets best to the larger of best and level, stops the game and the playback, and leaves sequence, input and level alone |
| Simon.InputIgnoredOutOfTurn | app.js:83-84 | a press with no game running or during a playback changes nothing |
| Simon.InputRecordsPress | app.js:85-92 | a press in the player's turn is appended to the input; a mismatch runs gameOver, anything else changes only the input |
| Simon.ExtraPressIsWrong | app.js:87-92 | a press beyond the end of the sequence is a mismatch and ends the game |
| Simon.InitialInv | app.js:2-7 | the state at page load satisfies the invariant |
| Simon.JudgeMeaning | app.js:84-97 | in the player's turn, the advance is scheduled exactly when input plus press equals the sequence, the game goes on exactly when it is a proper prefix, and it ends exactly when it is not a prefix |
| Simon.UserInputPreservesInv | app.js:83-98 | userInput keeps level equal to the sequence length and the input a prefix of the sequence during a game |
| Simon.StepPreservesInv | app.js:37-114 | every handler keeps the invariant, a stale nextLevel after reset or game over included |
| Simon.RunPreservesInv | app.js:37-114 | every run of events keeps the invariant |
| Simon.ReachableInv | app.js:2-7 | in every state reachable from page load the level is the sequence length, and during a game the input is a prefix of the sequence and no longer than it |
| Simon.StepBest | app.js:100-110 | one event raises best to the maximum of best and level when it ends the round, and leaves it otherwise |
| Simon.RunBest | app.js:105-107 | after any run, best is the maximum of the stored score and the scores of the rounds that ended; it never decreases |
| Simon.IdleUntilStart | app.js:83-84 | once the game is stopped, no press is accepted, no round ends and best stays put until startGame |
| Simon.AdvancesGrowSequence | app.js:60-66 | a chain of level advances appends their colours in order and adds their number to the level |
| Simon.GrowthInGame | app.js:60-66 | within one game (no startGame or resetGame), whatever presses, playback ends and mute clicks come between, the sequence grows by exactly the advances' colours in order and the level by their number |
| Simon.SequenceGrowth | app.js:37-42 | at every point of a game started from idle, the sequence is the start's colour followed by the colours of the advances so far, and the level is its length |
| Simon.StepIgnoresMuted | app.js:55-56 | no handler's effect on the game depends on the mute flag |
| Simon.RunIgnoresMuted | app.js:55-56 | two runs from states differing only in muted agree on everything else and on the rounds' scores |
| Simon.MuteIndependence | app.js:55-58 | removing every mute click from a run changes neither the resulting game (apart from muted) nor the rounds' scores |
| Simon.EndToEnd | app.js:83-114 | sequence [red]: pressing red completes it and the advance gives [red, blue] at level 2; pressing red then a wrong pad ends the round with score 2, the new best over 0 |
| Simon.StaleAdvanceAfterRestart | app.js:94-97 | an advance scheduled before resetGame and startGame still fires and puts the new game at level 2 |
| SimonGame.Game.constructor | app.js:2-7 | page load: empty sequence and input, level 0, nothing started, playing or muted, best the stored score; the invariant holds |
| SimonGame.Game.StartGame | app.js:37-44 | ignored (nothing changes, nothing flashes) while started; otherwise level 1, sequence [c], empty input, playing, and the flash order [c] |
| SimonGame.Game.ResetGame | app.js:46-53 | stops the game and empties sequence, input and level; its frame leaves playing, muted and best untouched |
| SimonGame.Game.ToggleMute | app.js:55-58 | flips muted; its frame leaves every other field untouched |
| SimonGame.Game.NextLevel | app.js:60-69 | unguarded: adds one level, clears the input, appends c to the sequence, starts a playback whose flash order is the whole sequence, re-establishing the invariant |
| SimonGame.Game.BeginPlayback | app.js:71-77 | sets playing and returns the pads in sequence order, one per element, none skipped |
| SimonGame.Game.EndPlayback | app.js:78-79 | clears playing and nothing else |
| SimonGame.Game.UserInput | app.js:83-98 | ignored out of turn; otherwise appends the press, ends the round with best raised to the level when input is no longer a prefix, and schedules the advance exactly when input equals the sequence |
| SimonGame.Game.GameOver | app.js:100-114 | best becomes the larger of best and level and never decreases; the game and the playback stop; sequence, input and level are untouched by its frame |
| SimonGame.Game.HandleKey | app.js:151-154 | a mapped key presses its pad through UserInput; any other key changes nothing and schedules nothing |

## Left out

- Page elements, their texts and classes, `disablePads` and the red flash on
  game over (app.js:9-17, 43, 51, 57, 63, 80, 95, 101-103, 108-109,
  147-149): presentation only. This includes the "Game Over" and "New High
  Score" messages.
- The Web Audio tone code and the tone frequencies (app.js:19-20, 128-141):
  foreign calls and floating point. `muted` only gates these, so it
  affects nothing modelled (see `Simon.MuteIndependence`).
- `localStorage` (app.js:23, 107, 158-161): the stored best score is the
  constructor's parameter, already a number; the string-to-number coercion
  of the stored value and the write on a new high score are not modelled.
- Timer durations (400, 300, 200 and 1000 ms) and the Promise and
  `setTimeout` mechanics of `flashPad` and `wait` (app.js:116-126,
  143-145): only their ordering effects are modelled, by the two-step
  playback and by `Advance`/`PlaybackEnd` events that may arrive at any
  point of a run. The 200 ms feedback flash of `userInput` (app.js:86) is
  presentation and is not modelled.
- `Math.random` (app.js:65): the drawn colour is a parameter, so uniformity
  of the draw is not modelled.
- The lower-casing of the key in the keydown listener (app.js:30):
  `HandleKey` receives the key already lower-cased.
- The first-run rules dialog (app.js:157-163): presentation.
- SimonGame.Game.HandleKey: the key table is a plain object looked up with
  `map[key]` (app.js:152-153), so the keys `constructor` and `__proto__`
  find a truthy value inherited from `Object.prototype`; no physical key
  produces them, but a synthetic keydown event can. The code then calls
  `userInput` with that non-colour value, which in the player's turn is
  pushed and mismatches, so `gameOver` runs and may raise `best`. The model
  treats these two keys like every other unmapped key (`Simon.KeyColor`
  gives `None`, nothing changes).
- SimonGame.Game.BeginPlayback: `flashes` is `gameSeq` at the moment the
  playback starts. The code's `for … of gameSeq` (app.js:74) walks the live
  array, so a stale `nextLevel` pushing into it during a playback is
  flashed too, and a playback that runs across `resetGame` or `startGame`
  (which bind a new array, app.js:41, 48) keeps flashing the old one; what
  overlapping playbacks flash over a live or replaced array is not
  modelled. The game state is unaffected, since `PlaybackEnd` may arrive
  at any point of a run.
