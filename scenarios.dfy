/** Whole games played against the state machine: each method builds a board,
    drives the game through clicks, timer callbacks and ticks, and states
    what the player sees at the end. */
module Scenarios {
  import opened Deck
  import opened Game
  import Shuffle

  /** A board of face-down cards with the given faces, displayed in board order. */
  method NewBoard(types: seq<int>) returns (cards: array<Card>)
    ensures fresh(cards) && TypeIds(cards[..]) == types
    ensures forall i :: 0 <= i < cards.Length ==> !cards[i].show && !cards[i].matched
  {
    cards := new Card[|types|](i requires 0 <= i < |types| => Card(types[i], false, false, i));
    assert TypeIds(cards[..]) == types;
  }

  /** Draws that always pick index 0. */
  function ZeroDraws(n: nat): (rs: seq<nat>)
    ensures Shuffle.ValidChoices(rs, n)
  {
    seq(n, i => 0)
  }

  /** The start click followed by its start continuation: a fresh round,
      the board shuffled and one more countdown interval, stored in
      `countDown`. Pending flip-backs and earlier intervals are kept. */
  method Restart(g: MixOrMatch, rs: seq<nat>)
    requires g.Valid() && Shuffle.ValidChoices(rs, g.cardsArray.Length)
    modifies g`cardToCheck, g`totalClicks, g`timeRemaining, g`matchedCards, g`busy, g`started
    modifies g`pendingStarts, g`cues, g`intervals, g`nextHandle, g`countDown, g.cardsArray
    ensures g.Valid() && g.started && !g.busy && g.cardToCheck == None && g.totalClicks == 0
    ensures g.matchedCards == [] && g.timeRemaining == g.totalTime && g.pendingStarts == old(g.pendingStarts)
    ensures g.countDown == old(g.nextHandle) && g.countDown !in old(g.intervals)
    ensures g.intervals == old(g.intervals) + {g.countDown} && g.cues == old(g.cues) + [StartMusic]
  {
    g.StartGame();
    g.FinishStart(rs);
  }

  /** A game over a board with the given faces, after its first start. */
  method StartedGame(types: seq<int>, totalTime: int) returns (g: MixOrMatch)
    ensures fresh(g) && fresh(g.cardsArray) && g.Valid()
    ensures g.Types == types && g.cardsArray.Length == |types|
    ensures g.started && !g.busy && g.cardToCheck == None && g.totalClicks == 0 && g.matchedCards == []
    ensures g.timeRemaining == totalTime && g.totalTime == totalTime && g.flipBacks == []
    ensures g.intervals == {g.countDown} && !g.winnerShown && !g.gameOverShown && g.cues == [StartMusic]
  {
    var cards := NewBoard(types);
    g := new MixOrMatch(totalTime, cards);
    Restart(g, ZeroDraws(|types|));
  }

  /** A started game over the two-pair board A B A B. */
  method TwoPairGame(totalTime: int) returns (g: MixOrMatch)
    ensures fresh(g) && fresh(g.cardsArray) && g.Valid()
    ensures g.Types == [1, 2, 1, 2] && g.cardsArray.Length == 4
    ensures g.started && !g.busy && g.cardToCheck == None && g.totalClicks == 0 && g.matchedCards == []
    ensures g.timeRemaining == totalTime && g.totalTime == totalTime && g.flipBacks == []
    ensures g.intervals == {g.countDown} && !g.winnerShown && !g.gameOverShown && g.cues == [StartMusic]
  {
    g := StartedGame([1, 2, 1, 2], totalTime);
  }

  /** With no match made, `totalTime` ticks after the start lose the game
      exactly once: the game-over sound plays once, the time shows 0 and no
      countdown interval is left to fire. */
  method TimeRunsOut(types: seq<int>, totalTime: int)
    returns (lost: bool, remaining: int, ticking: bool, sounds: seq<Cue>)
    requires totalTime > 0
    ensures lost && remaining == 0 && !ticking
    ensures sounds == [StartMusic, GameOverSound]
  {
    var g := StartedGame(types, totalTime);
    var k := 0;
    while k < totalTime
      invariant 0 <= k <= totalTime
      invariant g.Valid()
      invariant g.timeRemaining == totalTime - k
      invariant k < totalTime ==> g.intervals == {g.countDown} && !g.gameOverShown && g.cues == [StartMusic]
      invariant k == totalTime ==> g.intervals == {} && g.gameOverShown && g.cues == [StartMusic, GameOverSound]
    {
      g.Tick(g.countDown);
      k := k + 1;
    }
    lost, remaining, ticking, sounds := g.gameOverShown, g.timeRemaining, g.intervals != {}, g.cues;
  }

  /** Clicking A, A, B, B on the board A B A B: four clicks, both pairs
      matched in click order, the game won once and the countdown cleared. */
  method PlayTwoPairs(totalTime: int)
    returns (clicks: nat, matched: seq<nat>, won: bool, ticking: bool, sounds: seq<Cue>)
    ensures clicks == 4 && matched == [2, 0, 3, 1] && won && !ticking
    ensures sounds == [StartMusic, FlipSound, FlipSound, MatchSound, FlipSound, FlipSound, MatchSound, WinnerSound]
  {
    var g := TwoPairGame(totalTime);
    MatchPair(g, 0, 2);
    MatchPair(g, 1, 3);
    clicks, matched, won, ticking, sounds := g.totalClicks, g.matchedCards, g.winnerShown, g.intervals != {}, g.cues;
  }

  /** Two clicks on the two cards of one face, with no pending card and the
      lock released: the pair is matched, and the game is won when it was the
      last pair. */
  method MatchPair(g: MixOrMatch, a: nat, b: nat)
    requires g.Valid() && a < g.cardsArray.Length && b < g.cardsArray.Length && a != b
    requires g.started && !g.busy && g.cardToCheck == None
    requires a !in g.matchedCards && b !in g.matchedCards && g.Types[a] == g.Types[b]
    modifies g`cues, g`totalClicks, g`cardToCheck, g`matchedCards
    modifies g`busy, g`flipBacks, g`intervals, g`winnerShown, g.cardsArray
    ensures g.Valid() && !g.busy && g.cardToCheck == None
    ensures g.totalClicks == old(g.totalClicks) + 2 && g.matchedCards == old(g.matchedCards) + [b, a]
    ensures var won := |g.matchedCards| == g.cardsArray.Length;
            && g.winnerShown == (old(g.winnerShown) || won)
            && g.intervals == (if won then old(g.intervals) - {g.countDown} else old(g.intervals))
            && g.cues == old(g.cues) + [FlipSound, FlipSound, MatchSound] + (if won then [WinnerSound] else [])
    ensures g.flipBacks == old(g.flipBacks)
  {
    g.FlipCard(a);
    g.FlipCard(b);
  }

  /** The sounds of `k` matched pairs: two flips and a match each. */
  function MatchCues(k: nat): (cs: seq<Cue>)
    ensures |cs| == 3 * k && WinnerSound !in cs
  {
    if k == 0 then [] else MatchCues(k - 1) + [FlipSound, FlipSound, MatchSound]
  }

  /** Matches the pairs of a pairing of the board one after the other, from
      an empty unlocked round: the matched list is the pairs in play order,
      and the game is won exactly once, by the last pair (never on an empty
      board, which has nothing to click). */
  method PlayPairs(g: MixOrMatch, pairs: seq<(nat, nat)>)
    requires g.Valid() && Paired(g.Types, pairs)
    requires g.started && !g.busy && g.cardToCheck == None && g.matchedCards == [] && !g.winnerShown
    modifies g`cues, g`totalClicks, g`cardToCheck, g`matchedCards
    modifies g`busy, g`flipBacks, g`intervals, g`winnerShown, g.cardsArray
    ensures g.Valid() && !g.busy && g.cardToCheck == None
    ensures g.matchedCards == Played(pairs) && g.totalClicks == old(g.totalClicks) + 2 * |pairs|
    ensures g.winnerShown == (|pairs| > 0)
    ensures g.intervals == if |pairs| > 0 then old(g.intervals) - {g.countDown} else old(g.intervals)
    ensures g.cues == old(g.cues) + MatchCues(|pairs|) + (if |pairs| > 0 then [WinnerSound] else [])
  {
    var k := 0;
    while k < |pairs|
      invariant 0 <= k <= |pairs|
      invariant g.Valid() && g.started && !g.busy && g.cardToCheck == None
      invariant g.matchedCards == Played(pairs[..k]) && g.totalClicks == old(g.totalClicks) + 2 * k
      invariant g.winnerShown == (k == |pairs| && k > 0)
      invariant g.intervals == if k == |pairs| && k > 0 then old(g.intervals) - {g.countDown} else old(g.intervals)
      invariant g.cues == old(g.cues) + MatchCues(k) + (if k == |pairs| && k > 0 then [WinnerSound] else [])
    {
      var (a, b) := pairs[k];
      NextPairUnplayed(g.Types, pairs, k);
      MatchPair(g, a, b);
      k := k + 1;
    }
    assert pairs[..|pairs|] == pairs;
  }

  /** On any board that splits into equal-face pairs, clicking the pairs one
      after the other wins the game exactly once: every card ends matched,
      the countdown is cleared, and the winner sound plays once, last. */
  method WinByPairs(types: seq<int>, pairs: seq<(nat, nat)>, totalTime: int)
    returns (clicks: nat, matched: seq<nat>, won: bool, ticking: bool, sounds: seq<Cue>)
    requires Paired(types, pairs) && |pairs| > 0
    ensures clicks == |types| && matched == Played(pairs) && won && !ticking
    ensures sounds == [StartMusic] + MatchCues(|pairs|) + [WinnerSound]
    ensures forall c: nat :: c < |types| ==> c in matched
  {
    var g := StartedGame(types, totalTime);
    PlayPairs(g, pairs);
    DistinctFullCoversDeck(g.matchedCards, g.cardsArray.Length);
    clicks, matched, won, ticking, sounds := g.totalClicks, g.matchedCards, g.winnerShown, g.intervals != {}, g.cues;
  }

  /** Two clicks on cards of different faces, with no pending card and the
      lock released: the board locks and the flip-back of the pair is
      scheduled, nothing is matched. */
  method MismatchPair(g: MixOrMatch, a: nat, b: nat)
    requires g.Valid() && a < g.cardsArray.Length && b < g.cardsArray.Length && a != b
    requires g.started && !g.busy && g.cardToCheck == None
    requires a !in g.matchedCards && b !in g.matchedCards && g.Types[a] != g.Types[b]
    modifies g`cues, g`totalClicks, g`cardToCheck, g`matchedCards
    modifies g`busy, g`flipBacks, g`intervals, g`winnerShown, g.cardsArray
    ensures g.Valid() && g.busy && g.cardToCheck == None
    ensures g.totalClicks == old(g.totalClicks) + 2 && g.matchedCards == old(g.matchedCards)
    ensures g.flipBacks == old(g.flipBacks) + [(b, a)] && g.intervals == old(g.intervals)
    ensures g.cues == old(g.cues) + [FlipSound, FlipSound] && g.winnerShown == old(g.winnerShown)
    ensures g.cardsArray[a].show && g.cardsArray[b].show
  {
    g.FlipCard(a);
    g.FlipCard(b);
  }

  /** Clicking A then B locks the board at once; when the flip-back fires
      both cards are face down again, the lock is released and nothing was
      matched. */
  method MismatchFlipsBack(totalTime: int)
    returns (lockedAfterClick: bool, lockedAfterDelay: bool, shown0: bool, shown1: bool,
             clicks: nat, matched: seq<nat>)
    ensures lockedAfterClick && !lockedAfterDelay && !shown0 && !shown1
    ensures clicks == 2 && matched == []
  {
    var g := TwoPairGame(totalTime);
    MismatchPair(g, 0, 1);
    lockedAfterClick := g.busy;
    g.ResolveMismatch();
    lockedAfterDelay, shown0, shown1 := g.busy, g.cardsArray[0].show, g.cardsArray[1].show;
    clicks, matched := g.totalClicks, g.matchedCards;
  }

  /** Losing does not lock the board: a click after the game-over text is
      shown is still counted and turns its card face up. */
  method ClickAfterLoss() returns (lost: bool, clicks: nat, shown: bool)
    ensures lost && clicks == 1 && shown
  {
    var g := TwoPairGame(1);
    g.Tick(g.countDown);
    g.FlipCard(0);
    lost, clicks, shown := g.gameOverShown, g.totalClicks, g.cardsArray[0].show;
  }

  /** A flip-back scheduled before a restart still fires after it: if the
      player matches one of its cards in the new round before it fires, that
      card ends matched but face down. */
  method StaleFlipBack() returns (matched: seq<nat>, shown0: bool)
    ensures 0 in matched && !shown0
  {
    var g := TwoPairGame(1);
    MismatchPair(g, 0, 1);
    g.Tick(g.countDown);
    Restart(g, ZeroDraws(4));
    MatchPair(g, 0, 2);
    g.ResolveMismatch();
    matched, shown0 := g.matchedCards, g.cardsArray[0].show;
  }

  /** Starting twice leaves the first countdown running. It fires first and
      takes the time to 0, which clears only the stored (second) countdown;
      the leaked one keeps ticking past 0 and never stops the game again. */
  method LeakedCountdown() returns (remaining: int, ticking: bool, sounds: seq<Cue>)
    ensures remaining == -1 && ticking
    ensures sounds == [StartMusic, StartMusic, GameOverSound]
  {
    var g := TwoPairGame(1);
    var first := g.countDown;
    Restart(g, ZeroDraws(4));
    g.Tick(first);
    g.Tick(first);
    remaining, ticking, sounds := g.timeRemaining, g.intervals != {}, g.cues;
  }

  /** The countdown only stops on hitting exactly 0: with a total time of 0
      the first tick shows -1 and the game is never lost. */
  method ZeroTimeNeverLoses() returns (remaining: int, lost: bool, ticking: bool)
    ensures remaining == -1 && !lost && ticking
  {
    var g := TwoPairGame(0);
    g.Tick(g.countDown);
    remaining, lost, ticking := g.timeRemaining, g.gameOverShown, g.intervals != {};
  }
}
