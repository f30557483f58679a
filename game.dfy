/** The Mix-or-Match game state machine: a board of cards that the player
    flips two at a time, a flip counter, the list of matched cards, a pending
    first card, a busy lock and a countdown.

    The browser's timers are explicit state. `pendingStarts` counts the
    500 ms start continuations that are scheduled and have not run yet,
    `flipBacks` holds the 1000 ms mismatch callbacks in the order they fire,
    `intervals` is the set of live countdown intervals, `countDown` the handle
    the game last stored (0 before any, as `clearInterval(undefined)` clears
    nothing) and `nextHandle` the handle the next interval gets. Each callback
    is a method the environment calls, and each call runs to completion. */
module Game {
  import opened Deck
  import Shuffle

  datatype Option<T> = None | Some(value: T)

  /** The sounds the game asks its audio controller for. `WinnerSound` and
      `GameOverSound` also stop and rewind the background music. */
  datatype Cue = StartMusic | FlipSound | MatchSound | WinnerSound | GameOverSound

  class MixOrMatch {
    const cardsArray: array<Card>
    const totalTime: int
    /** The faces of the board, fixed when the game is built. */
    ghost const Types: seq<int>

    var timeRemaining: int
    /** The round fields below exist once `StartGame` has run; before that a
        click fails with a TypeError and changes nothing. */
    var started: bool
    var cardToCheck: Option<nat>
    var totalClicks: nat
    var matchedCards: seq<nat>
    var busy: bool

    var pendingStarts: nat
    var flipBacks: seq<(nat, nat)>
    var intervals: set<nat>
    var countDown: nat
    var nextHandle: nat

    /** The "winner" and "game over" texts made visible, and the sounds played. */
    var winnerShown: bool
    var gameOverShown: bool
    var cues: seq<Cue>

    /** The board part of the invariant, everything but "the pending card is
        not matched": this is what holds in the middle of a comparison, after
        the pair is pushed onto `matchedCards` and before `cardToCheck` is
        cleared. */
    ghost predicate BoardWellformed()
      reads this`matchedCards, this`cardToCheck, this`flipBacks, cardsArray
    {
      && cardsArray.Length == |Types|
      && (forall i :: 0 <= i < cardsArray.Length ==> cardsArray[i].typeId == Types[i])
      && WithinDeck(matchedCards, cardsArray.Length) && Distinct(matchedCards)
      && (forall k :: 0 <= k < |matchedCards| ==> cardsArray[matchedCards[k]].matched)
      && (cardToCheck.Some? ==> cardToCheck.value < cardsArray.Length)
      && (forall k :: 0 <= k < |flipBacks| ==>
            flipBacks[k].0 < cardsArray.Length && flipBacks[k].1 < cardsArray.Length)
    }

    /** Interval handles are positive and handed out in increasing order. */
    ghost predicate TimersWellformed()
      reads this`intervals, this`countDown, this`nextHandle
    {
      && 0 < nextHandle && countDown < nextHandle
      && (forall h :: h in intervals ==> 0 < h < nextHandle)
    }

    ghost predicate Wellformed()
      reads this`matchedCards, this`cardToCheck, this`flipBacks, cardsArray
      reads this`intervals, this`countDown, this`nextHandle
    {
      BoardWellformed() && TimersWellformed()
    }

    /** The game invariant: no card is matched twice, every matched card
        carries the `matched` class, and the pending card is never a matched
        one. */
    ghost predicate Valid()
      reads this`matchedCards, this`cardToCheck, this`flipBacks, cardsArray
      reads this`intervals, this`countDown, this`nextHandle
    {
      Wellformed() && (cardToCheck.Some? ==> cardToCheck.value !in matchedCards)
    }

    /** Every matched card and the pending card are face up. Every operation
        keeps this except a mismatch flip-back one of whose cards was matched
        or made pending after it was scheduled, which a restart or a second
        start continuation releasing the lock makes possible (see
        ResolveMismatch). */
    ghost predicate AllMatchedShown()
      reads this`matchedCards, this`cardToCheck, cardsArray
    {
      && (forall k :: 0 <= k < |matchedCards| && matchedCards[k] < cardsArray.Length ==>
            cardsArray[matchedCards[k]].show)
      && (cardToCheck.Some? && cardToCheck.value < cardsArray.Length ==> cardsArray[cardToCheck.value].show)
    }

    /** The guard of a click: the game is not busy, the card is not matched
        and it is not the pending card. */
    predicate CanFlipCard(card: nat)
      reads this
    {
      !busy && card !in matchedCards && cardToCheck != Some(card)
    }

    /** A click on `card` gets past the guard without throwing. */
    predicate Accepts(card: nat)
      reads this
    {
      started && CanFlipCard(card)
    }

    /** Builds a game over the given board. */
    constructor (totalTime: int, cards: array<Card>)
      ensures Valid() && AllMatchedShown()
      ensures cardsArray == cards && cards[..] == old(cards[..]) && Types == TypeIds(cards[..])
      ensures this.totalTime == totalTime && timeRemaining == totalTime
      ensures !started && !busy && cardToCheck == None && totalClicks == 0 && matchedCards == []
      ensures pendingStarts == 0 && flipBacks == [] && intervals == {} && countDown == 0 && nextHandle == 1
      ensures !winnerShown && !gameOverShown && cues == []
    {
      cardsArray := cards;
      this.totalTime := totalTime;
      timeRemaining := totalTime;
      Types := TypeIds(cards[..]);
      started, busy, cardToCheck, totalClicks, matchedCards := false, false, None, 0, [];
      pendingStarts, flipBacks, intervals, countDown, nextHandle := 0, [], {}, 0, 1;
      winnerShown, gameOverShown, cues := false, false, [];
    }

    /** Resets the round at once and schedules the start continuation. A
        countdown interval of an earlier round is not cleared, a pending
        mismatch flip-back is not cancelled, and the outcome texts and the
        timers are left as they are. */
    method StartGame()
      requires Valid()
      modifies this`cardToCheck, this`totalClicks, this`timeRemaining, this`matchedCards
      modifies this`busy, this`started, this`pendingStarts, cardsArray
      ensures Valid() && AllMatchedShown()
      ensures started && busy && cardToCheck == None && totalClicks == 0 && matchedCards == []
      ensures timeRemaining == totalTime
      ensures forall i :: 0 <= i < cardsArray.Length ==>
                cardsArray[i] == old(cardsArray[i]).(show := false, matched := false)
      ensures pendingStarts == old(pendingStarts) + 1
    {
      cardToCheck, totalClicks, timeRemaining, matchedCards, busy := None, 0, totalTime, [], true;
      started, pendingStarts := true, pendingStarts + 1;
      HideCards();
    }

    /** The start continuation: music, shuffle, a new countdown, and the
        lock released. The round itself is left as it is. */
    method FinishStart(rs: seq<nat>)
      requires Valid() && pendingStarts > 0
      requires Shuffle.ValidChoices(rs, cardsArray.Length)
      modifies this`cues, this`intervals, this`nextHandle, this`countDown
      modifies this`busy, this`pendingStarts, cardsArray
      ensures Valid() && (old(AllMatchedShown()) ==> AllMatchedShown())
      ensures cardsArray[..] == Shuffle.Shuffled(old(cardsArray[..]), rs, cardsArray.Length)
      ensures cues == old(cues) + [StartMusic]
      ensures countDown == old(nextHandle) && countDown !in old(intervals)
      ensures intervals == old(intervals) + {countDown} && nextHandle == old(nextHandle) + 1
      ensures !busy && pendingStarts == old(pendingStarts) - 1
    {
      ShuffleCards(rs);
      var h := StartCountDown();
      cues, countDown, busy, pendingStarts := cues + [StartMusic], h, false, pendingStarts - 1;
    }

    /** Clears the `show` and `matched` classes of every card. */
    method HideCards()
      modifies cardsArray
      ensures forall i :: 0 <= i < cardsArray.Length ==>
                cardsArray[i] == old(cardsArray[i]).(show := false, matched := false)
    {
      for i := 0 to cardsArray.Length
        invariant forall k :: 0 <= k < i ==>
                    cardsArray[k] == old(cardsArray[k]).(show := false, matched := false)
        invariant forall k :: i <= k < cardsArray.Length ==> cardsArray[k] == old(cardsArray[k])
      {
        cardsArray[i] := cardsArray[i].(show := false, matched := false);
      }
    }

    /** A click on `card`. A refused click changes nothing; an accepted one
        counts the click, turns the card face up and either makes it the
        pending card or compares it with the pending card. */
    method FlipCard(card: nat)
      requires Valid() && card < cardsArray.Length
      modifies this`cues, this`totalClicks, this`cardToCheck, this`matchedCards
      modifies this`busy, this`flipBacks, this`intervals, this`winnerShown, cardsArray
      ensures Valid() && (old(AllMatchedShown()) ==> AllMatchedShown())
      ensures !old(Accepts(card)) ==> unchanged(this) && unchanged(cardsArray)
      ensures old(Accepts(card)) ==> totalClicks == old(totalClicks) + 1 && cardsArray[card].show
      ensures old(Accepts(card)) && old(cardToCheck).None? ==>
                && cardToCheck == Some(card)
                && cardsArray[..] == old(cardsArray[..])[card := old(cardsArray[card]).(show := true)]
                && matchedCards == old(matchedCards) && busy == old(busy)
                && flipBacks == old(flipBacks) && intervals == old(intervals)
                && winnerShown == old(winnerShown) && cues == old(cues) + [FlipSound]
      ensures old(Accepts(card)) && old(cardToCheck).Some? ==> cardToCheck == None
      ensures old(Accepts(card)) && old(cardToCheck).Some? && Types[card] == Types[old(cardToCheck).value] ==>
                var other := old(cardToCheck).value;
                var won := |old(matchedCards)| + 2 == cardsArray.Length;
                && matchedCards == old(matchedCards) + [card, other]
                && cardsArray[..] == old(cardsArray[..])[card := old(cardsArray[card]).(show := true, matched := true)]
                                                       [other := old(cardsArray[other]).(matched := true)]
                && busy == old(busy) && flipBacks == old(flipBacks)
                && winnerShown == (old(winnerShown) || won)
                && intervals == (if won then old(intervals) - {countDown} else old(intervals))
                && cues == old(cues) + [FlipSound, MatchSound] + (if won then [WinnerSound] else [])
      ensures old(Accepts(card)) && old(cardToCheck).Some? && Types[card] != Types[old(cardToCheck).value] ==>
                && matchedCards == old(matchedCards) && busy
                && cardsArray[..] == old(cardsArray[..])[card := old(cardsArray[card]).(show := true)]
                && flipBacks == old(flipBacks) + [(card, old(cardToCheck).value)]
                && intervals == old(intervals) && winnerShown == old(winnerShown)
                && cues == old(cues) + [FlipSound]
    {
      if !started {
        return;
      }
      if CanFlipCard(card) {
        cues, totalClicks := cues + [FlipSound], totalClicks + 1;
        cardsArray[card] := cardsArray[card].(show := true);
        if cardToCheck.Some? {
          CheckForCardMatch(card);
        } else {
          cardToCheck := Some(card);
        }
      }
    }

    /** Compares `card` with the pending card, then clears the pending card. */
    method CheckForCardMatch(card: nat)
      requires Valid() && card < cardsArray.Length
      requires cardToCheck.Some? && card != cardToCheck.value && card !in matchedCards
      modifies this`cardToCheck, this`matchedCards, this`busy, this`flipBacks
      modifies this`intervals, this`cues, this`winnerShown, cardsArray
      ensures Valid() && cardToCheck == None
      ensures (old(AllMatchedShown()) && cardsArray[card].show) ==> AllMatchedShown()
      ensures cardsArray[card].show == old(cardsArray[card].show)
      ensures Types[card] == Types[old(cardToCheck).value] ==>
                var other := old(cardToCheck).value;
                var won := |old(matchedCards)| + 2 == cardsArray.Length;
                && matchedCards == old(matchedCards) + [card, other]
                && cardsArray[..] == old(cardsArray[..])[card := old(cardsArray[card]).(matched := true)]
                                                       [other := old(cardsArray[other]).(matched := true)]
                && busy == old(busy) && flipBacks == old(flipBacks)
                && winnerShown == (old(winnerShown) || won)
                && intervals == (if won then old(intervals) - {countDown} else old(intervals))
                && cues == old(cues) + [MatchSound] + (if won then [WinnerSound] else [])
      ensures Types[card] != Types[old(cardToCheck).value] ==>
                && matchedCards == old(matchedCards) && busy && cardsArray[..] == old(cardsArray[..])
                && flipBacks == old(flipBacks) + [(card, old(cardToCheck).value)]
                && intervals == old(intervals) && winnerShown == old(winnerShown) && cues == old(cues)
    {
      var other := cardToCheck.value;
      if cardsArray[card].typeId == cardsArray[other].typeId {
        CardMatch(card, other);
      } else {
        CardMisMatch(card, other);
      }
      cardToCheck := None;
    }

    /** Records a matched pair; when every card is matched the game is won. */
    method CardMatch(card1: nat, card2: nat)
      requires Wellformed() && card1 < cardsArray.Length && card2 < cardsArray.Length
      requires card1 != card2 && card1 !in matchedCards && card2 !in matchedCards
      modifies this`matchedCards, this`intervals, this`cues, this`winnerShown, cardsArray
      ensures Wellformed()
      ensures matchedCards == old(matchedCards) + [card1, card2]
      ensures cardsArray[..] == old(cardsArray[..])[card1 := old(cardsArray[card1]).(matched := true)]
                                                  [card2 := old(cardsArray[card2]).(matched := true)]
      ensures winnerShown == (old(winnerShown) || |matchedCards| == cardsArray.Length)
      ensures intervals == if |matchedCards| == cardsArray.Length then old(intervals) - {countDown} else old(intervals)
      ensures cues == old(cues) + [MatchSound] + (if |matchedCards| == cardsArray.Length then [WinnerSound] else [])
    {
      matchedCards := matchedCards + [card1, card2];
      cardsArray[card1] := cardsArray[card1].(matched := true);
      cardsArray[card2] := cardsArray[card2].(matched := true);
      cues := cues + [MatchSound];
      if |matchedCards| == cardsArray.Length {
        Winner();
      }
    }

    /** Locks the board and schedules the flip-back of the two cards. */
    method CardMisMatch(card1: nat, card2: nat)
      requires Wellformed() && card1 < cardsArray.Length && card2 < cardsArray.Length
      modifies this`busy, this`flipBacks
      ensures Wellformed() && busy
      ensures flipBacks == old(flipBacks) + [(card1, card2)]
    {
      busy := true;
      flipBacks := flipBacks + [(card1, card2)];
    }

    /** The oldest scheduled flip-back fires: its two cards are turned face
        down and the lock is released, whatever round it was scheduled in. */
    method ResolveMismatch()
      requires Valid() && flipBacks != []
      modifies this`busy, this`flipBacks, cardsArray
      ensures Valid()
      ensures forall i :: 0 <= i < cardsArray.Length ==>
                cardsArray[i] == if i == old(flipBacks[0].0) || i == old(flipBacks[0].1)
                                 then old(cardsArray[i]).(show := false) else old(cardsArray[i])
      ensures !busy && flipBacks == old(flipBacks[1..])
      ensures (&& old(AllMatchedShown())
               && old(flipBacks[0].0) !in matchedCards && old(flipBacks[0].1) !in matchedCards
               && cardToCheck != Some(old(flipBacks[0].0)) && cardToCheck != Some(old(flipBacks[0].1)))
              ==> AllMatchedShown()
    {
      var (card1, card2) := flipBacks[0];
      flipBacks := flipBacks[1..];
      cardsArray[card1] := cardsArray[card1].(show := false);
      cardsArray[card2] := cardsArray[card2].(show := false);
      busy := false;
    }

    /** Starts a countdown interval and returns its handle. */
    method StartCountDown() returns (h: nat)
      requires TimersWellformed()
      modifies this`intervals, this`nextHandle
      ensures TimersWellformed() && h == old(nextHandle) && h !in old(intervals)
      ensures intervals == old(intervals) + {h} && nextHandle == old(nextHandle) + 1
    {
      h := nextHandle;
      intervals := intervals + {h};
      nextHandle := nextHandle + 1;
    }

    /** One second of the countdown interval `h`: the time goes down by one,
        and on reaching exactly 0 the game is lost. The lock and the round
        are left as they are. */
    method Tick(h: nat)
      requires Valid() && h in intervals
      modifies this`timeRemaining, this`intervals, this`cues, this`gameOverShown
      ensures Valid()
      ensures timeRemaining == old(timeRemaining) - 1
      ensures timeRemaining == 0 ==>
                && intervals == old(intervals) - {countDown} && gameOverShown
                && cues == old(cues) + [GameOverSound]
      ensures timeRemaining != 0 ==>
                intervals == old(intervals) && gameOverShown == old(gameOverShown) && cues == old(cues)
    {
      timeRemaining := timeRemaining - 1;
      if timeRemaining == 0 {
        GameOver();
      }
    }

    /** Clears the stored countdown, plays the game-over sound and shows the
        game-over text. */
    method GameOver()
      modifies this`intervals, this`cues, this`gameOverShown
      ensures intervals == old(intervals) - {countDown}
      ensures cues == old(cues) + [GameOverSound] && gameOverShown
    {
      intervals := intervals - {countDown};
      cues := cues + [GameOverSound];
      gameOverShown := true;
    }

    /** Clears the stored countdown, plays the winner sound and shows the
        winner text. */
    method Winner()
      modifies this`intervals, this`cues, this`winnerShown
      ensures intervals == old(intervals) - {countDown}
      ensures cues == old(cues) + [WinnerSound] && winnerShown
    {
      intervals := intervals - {countDown};
      cues := cues + [WinnerSound];
      winnerShown := true;
    }

    /** The shuffle loop over the board: only the `order` fields change. */
    method ShuffleCards(rs: seq<nat>)
      requires Valid() && Shuffle.ValidChoices(rs, cardsArray.Length)
      modifies cardsArray
      ensures Valid() && (old(AllMatchedShown()) ==> AllMatchedShown())
      ensures cardsArray[..] == Shuffle.Shuffled(old(cardsArray[..]), rs, cardsArray.Length)
      ensures forall k :: 0 <= k < cardsArray.Length ==>
                cardsArray[k] == old(cardsArray[k]).(order := cardsArray[k].order)
    {
      var i := cardsArray.Length - 1;
      while i > 0
        invariant -1 <= i < cardsArray.Length
        invariant Shuffle.Shuffled(cardsArray[..], rs, i + 1)
                  == Shuffle.Shuffled(old(cardsArray[..]), rs, cardsArray.Length)
      {
        var randomIndex := rs[i];
        ghost var before := cardsArray[..];
        cardsArray[randomIndex] := cardsArray[randomIndex].(order := i);
        cardsArray[i] := cardsArray[i].(order := randomIndex);
        assert cardsArray[..] == Shuffle.Step(before, i, randomIndex);
        i := i - 1;
      }
      Shuffle.ShuffledKeepsFaces(old(cardsArray[..]), rs, cardsArray.Length);
      assert forall k :: 0 <= k < cardsArray.Length ==>
               && cardsArray[k].typeId == old(cardsArray[k].typeId)
               && cardsArray[k].matched == old(cardsArray[k].matched)
               && cardsArray[k].show == old(cardsArray[k].show);
    }
  }

  /** The matched list never outgrows the board: it holds distinct indices
      of the board's cards. */
  lemma MatchedWithinDeck(g: MixOrMatch)
    requires g.Valid()
    ensures |g.matchedCards| <= g.cardsArray.Length
  {
    DistinctWithinBound(g.matchedCards, g.cardsArray.Length);
  }

  /** Once every card is matched no click gets past the guard, so the game
      cannot be won a second time in the same round. */
  lemma FullBoardRefusesFlips(g: MixOrMatch)
    requires g.Valid() && |g.matchedCards| == g.cardsArray.Length
    ensures forall c: nat :: c < g.cardsArray.Length ==> !g.CanFlipCard(c)
  {
    DistinctFullCoversDeck(g.matchedCards, g.cardsArray.Length);
  }
}
