# Mix-or-Match game state machine in Dafny

This project models the `MixOrMatch` class of the Mix-or-Match memory game
(app.js:38-155) and proves properties of that model.

The board is an array of cards. Each card has:
- a face (`typeId`);
- the `show` and `matched` classes;
- a display `order`.

The player flips cards two at a time. The game keeps:
- a click counter;
- the pending first card of a pair;
- the list of matched cards;
- a busy lock;
- a countdown.

The game is won when every card is matched. It is lost when the countdown reaches exactly 0.

## Files

- `deck.dfy`, module `Deck`: the `Card` record and the faces of a board. It holds facts about lists of distinct card indices, which bound the matched list and show that a full matched list covers the board.
- `shuffle.dfy`, module `Shuffle`: the display-order shuffle as a function of the random draws, and lemmas about what it writes.
- `game.dfy`, module `Game`: the class `MixOrMatch`.
  - One method per source method. The browser callbacks are methods the environment calls:
    - the 500 ms start continuation is `FinishStart`;
    - the 1000 ms mismatch flip-back is `ResolveMismatch`;
    - one countdown tick is `Tick`.
  - The game invariant `Valid`, and lemmas about it.
- `scenarios.dfy`, module `Scenarios`: whole games driven through the class. Each one states what the player sees at the end.

## How the timers are modelled

Timers are explicit fields of the game:
- `pendingStarts` counts scheduled start continuations.
- `flipBacks` is the queue of scheduled flip-backs, in firing order. They all have the same delay.
- `intervals` is the set of live countdown intervals.
- `countDown` is the handle the game last stored. It is 0 before the first start, because clearing an undefined handle clears nothing.
- `nextHandle` is the handle the next interval gets.

With the timers as state, the model shows what the class does when a round is restarted:
- the old countdown keeps running;
- a flip-back scheduled in the old round still fires in the new one.

Sounds go to the log `cues`. The winner and game-over texts are the flags `winnerShown` and `gameOverShown`.

Before `startGame` has run, the round fields are undefined. A click then fails with a TypeError inside the guard, before anything changes. The model gives this state a `started` flag, and a click in it changes nothing.

Cards are indices into the board:
- Comparing two card faces (`getCardType`, app.js:118-120) is equality of `typeId`.
- Comparing card identities is equality of indices.

## Behaviour of the code that the model keeps

- **The shuffle.** The loop at app.js:145-149 has the shape of a Fisher–Yates pass.
  - It makes two assignments instead of exchanging orders: card `r` gets order `i`, then card `i` gets order `r`.
  - So the result need not be a permutation. `Shuffle.ShuffleCanRepeatOrders` shows three cards and the draws 0, 0 giving the orders 1, 0, 0.
- **Timers across starts.** `startGame` (app.js:47-64) neither clears the previous interval nor cancels pending flip-backs. It overwrites `countDown` with the new handle (app.js:57).
  - `Scenarios.LeakedCountdown` shows an interval that outlives the loss.
  - `Scenarios.StaleFlipBack` shows a flip-back from the previous round turning face down a card matched in the new one.
- **"Every matched card is face up" is not an invariant.** It is the separate predicate `AllMatchedShown`, not part of `Valid`.
  - Every operation keeps it except `ResolveMismatch`.
  - `ResolveMismatch` keeps it unless one of its two cards was matched, or made the pending card, after the flip-back was scheduled.
  - That happens after a restart. It also happens after a second start continuation releases the lock while a flip-back is still queued.
- **The countdown stops only on hitting exactly 0** (app.js:126). The model does not require `totalTime > 0`, and `Scenarios.ZeroTimeNeverLoses` shows a total time of 0.
- **The game never checks its pair assumption.** It wins only if the board splits into pairs of equal faces.
  - `Deck.Paired` states such a split.
  - `Scenarios.WinByPairs` shows that on such a board, matching the pairs one after the other wins the game exactly once.

## Model

| member | source | states |
|---|---|---|
| Deck.DistinctWithinBound | app.js:98-100 | a list of distinct indices of an `n`-card board has at most `n` entries |
| Deck.DistinctFullCoversDeck | app.js:104-105 | a list of `n` distinct indices of an `n`-card board contains every card of the board |
| Shuffle.Step | app.js:147-148 | one loop step keeps the board's length |
| Shuffle.StepWrites | app.js:147-148 | step `i` with draw `r` gives card `i` the order `r` and card `r` (if different) the order `i`; every other card is unchanged |
| Shuffle.ShuffledKeepsFaces | app.js:144-150 | the shuffle loop changes only `order`: every card keeps its face, `show` and `matched`, and the board keeps its length |
| Shuffle.ShuffledWrites | app.js:145-149 | a position no step chose keeps its card; a chosen position ends with an order in [0, n-1] (in [0, i-1] after the steps below i) |
| Shuffle.WrittenCoversTail | app.js:145-148 | each position 1..n-1 is written by its own step; position 0 is written exactly when some step draws 0 |
| Deck.Played | app.js:98-100 | the matched list after the pairs of a pairing are matched in turn has two entries per pair, each a card of some pair |
| Deck.NextPairUnplayed | app.js:152-154 | under a pairing, neither card of the next pair is already matched, so the guard's "not matched" test passes for both; matching the pair appends its two cards |
| Shuffle.Shuffled | app.js:144-150 | the board after the loop steps for i-1 down to 1; it keeps the board's length |
| Shuffle.ShuffleCanRepeatOrders | app.js:145-149 | with three cards and draws 0, 0 the orders become 1, 0, 0 whatever they were: the shuffle is not a permutation of display orders |
| Game.MixOrMatch.constructor | app.js:39-46 | the game holds the given board and total time, with the time remaining equal to the total; it starts with no round, no timers, no sounds and no outcome shown, and it satisfies the invariant |
| Game.MixOrMatch.StartGame | app.js:47-64 | the round is reset at once: no pending card, 0 clicks, full time, nothing matched, the board locked, every card's `show` and `matched` cleared and nothing else about the cards changed; one more start continuation is scheduled; the invariant and "matched cards are face up" hold |
| Game.MixOrMatch.FinishStart | app.js:54-59 | the start continuation plays the music, leaves the board equal to the shuffle of the old board under the draws, starts a new interval whose handle was not live and stores it, and releases the lock; the invariant is kept |
| Game.MixOrMatch.HideCards | app.js:66-71 | every card loses `show` and `matched`, and its face and order are unchanged |
| Game.MixOrMatch.FlipCard | app.js:73-86 | a click the guard refuses (or one before the first start) changes nothing; an accepted click adds exactly one click and turns the card face up; a first half makes it the pending card; a second half always clears the pending card, and on equal faces appends the two cards to the matched list, marks both matched and wins exactly when the list covers the board; on different faces it locks the board and schedules the pair's flip-back, matching nothing; the invariant and "matched cards are face up" are kept |
| Game.MixOrMatch.CheckForCardMatch | app.js:88-96 | on equal faces the two cards are matched, otherwise the board locks and the pair's flip-back is scheduled; in both cases the pending card is cleared and the invariant holds |
| Game.MixOrMatch.CardMatch | app.js:98-107 | the matched list grows by exactly the two cards, both get `matched` and nothing else on the board changes; the match sound plays, and the winner step runs exactly when the list length equals the board size |
| Game.MixOrMatch.CardMisMatch | app.js:109-116 | the board is locked and exactly one flip-back for the two cards is queued |
| Game.MixOrMatch.ResolveMismatch | app.js:111-115 | the oldest flip-back clears `show` on exactly its two cards, leaves every other card unchanged and releases the lock; "matched cards are face up" is kept when neither card is matched or pending |
| Game.MixOrMatch.StartCountDown | app.js:122-130 | a new live interval with a fresh handle is started and returned |
| Game.MixOrMatch.Tick | app.js:123-129 | a tick takes exactly one second off the time; reaching exactly 0 clears the stored countdown, plays the game-over sound and shows the game-over text; otherwise nothing else changes |
| Game.MixOrMatch.GameOver | app.js:132-136 | the stored countdown is cleared, the game-over sound plays and the game-over text is shown |
| Game.MixOrMatch.Winner | app.js:138-142 | the stored countdown is cleared, the winner sound plays and the winner text is shown |
| Game.MixOrMatch.ShuffleCards | app.js:144-150 | the loop leaves the board equal to the shuffle function of the old board under the draws; faces, `show` and `matched` are unchanged; the invariant holds |
| Game.MixOrMatch.CanFlipCard | app.js:152-154 | true exactly when the game is not busy, the card is not matched and it is not the pending card; `FlipCard` changes nothing when it is false |
| Game.MatchedWithinDeck | app.js:98-107 | under the invariant the matched list never holds more entries than the board has cards |
| Game.FullBoardRefusesFlips | app.js:152-154 | once every card is matched the guard refuses every card, so a round is won at most once |
| Scenarios.Restart | app.js:47-64 | a start click followed by its continuation gives a fresh unlocked round with a new stored interval, keeping earlier intervals and queued flip-backs |
| Scenarios.StartedGame | app.js:39-59 | a new game on any board, once started, has one live interval, the music cue and an unlocked empty round |
| Scenarios.MatchPair | app.js:73-107 | two clicks on a pair of equal faces add two clicks, append the second card first, then the first, as `cardMatch(card, cardToCheck)` pushes them, leave the board unlocked and win exactly when the board is covered |
| Scenarios.MismatchPair | app.js:73-116 | two clicks on different faces add two clicks, lock the board, leave both face up and queue their flip-back, matching nothing |
| Scenarios.PlayPairs | app.js:73-107 | matching the pairs of a pairing one after the other from an empty unlocked round: the matched list is the pairs in play order, two clicks per pair, and the game is won (countdown cleared, one winner sound, last) exactly when there is at least one pair |
| Scenarios.WinByPairs | app.js:98-107 | on any board that splits into equal-face pairs, clicking the pairs wins the game exactly once: one click per card, every card matched, no interval left, and the sounds are the music, two flips and a match per pair, then one winner sound |
| Scenarios.TimeRunsOut | app.js:122-136 | with no match made, `totalTime` ticks lose the game exactly once: the time shows 0, no interval is left and the sounds are the music then one game-over cue |
| Scenarios.PlayTwoPairs | app.js:98-107 | on the board A B A B, clicking A, A, B, B gives 4 clicks, the matched list [2, 0, 3, 1], the game won, no interval left, and the expected sound sequence |
| Scenarios.MismatchFlipsBack | app.js:109-116 | clicking A then B locks the board at once; after the flip-back both cards are face down, the lock is released, nothing is matched and the clicks are 2 |
| Scenarios.ClickAfterLoss | app.js:132-136 | losing does not lock the board: a click after the loss is counted and turns its card face up |
| Scenarios.StaleFlipBack | app.js:111-115 | a flip-back scheduled before a restart fires after it and turns face down a card matched in the new round |
| Scenarios.LeakedCountdown | app.js:54-59 | after two starts, the first interval, still live, fires first and takes the time to 0, which clears only the stored second interval; the first then ticks the time to -1 and stays live, and the game-over sound plays once |
| Scenarios.ZeroTimeNeverLoses | app.js:124-128 | with a total time of 0 the first tick shows -1, the game is not lost and the countdown stays live |

## Left out

- The `AudioController` class (app.js:1-36) is reduced to the log of cues the game asks for. Playback, volume, looping, the music being stopped and rewound, and the hover sound are not modelled.
- The text writes are not modelled: the timer and click counter in `startGame`, `flipCard` and the tick (app.js:43-44, 62-63, 77, 125).
- The overlay class toggles are reduced to the flags `winnerShown` and `gameOverShown`.
- The `ready()` event wiring and the global instance (app.js:157-185) are not part of this model.
- Real time is not modelled.
  - Each timer callback is a method that the environment may call whenever its timer exists.
  - Flip-backs fire in the order they were scheduled. Nothing else constrains the order of the 500 ms continuation, the 1000 ms flip-backs and the ticks.
- `Math.random` and `Math.floor` are replaced by a sequence of draws `rs`, with `rs[i]` in [0, i], supplied by the caller.
- Browser interval handles are modelled as increasing positive numbers. A real browser chooses its own positive handles.
- Game.MixOrMatch.ResolveMismatch: keeps "matched cards are face up" only when the flip-back's cards are neither matched nor pending. A flip-back queued before one of its cards was matched or made pending can turn that card face down, as `Scenarios.StaleFlipBack` shows.
- The game never checks that the board splits into equal-face pairs, and neither does the model. Only `Scenarios.WinByPairs` and `Scenarios.PlayPairs` assume such a split.
