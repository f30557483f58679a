/** The display-order shuffle of the board, as the game's loop performs it:
    for i from the last index down to 1 it draws an index r in [0, i], gives
    card r the order i and then gives card i the order r. These are two
    assignments, not an exchange of the two cards' current orders, so the
    result is in general not a permutation of the orders it started from. */
module Shuffle {
  import opened Deck

  /** The random draws of one shuffle of an `n`-card board: the loop step for
      index i uses rs[i], which lies in [0, i] (rs[0] is never used). */
  predicate ValidChoices(rs: seq<nat>, n: nat)
  {
    |rs| == n && forall i :: 0 <= i < n ==> rs[i] <= i
  }

  /** One loop step: card r gets order i, then card i gets order r. */
  function Step(cs: seq<Card>, i: nat, r: nat): (ds: seq<Card>)
    requires r <= i < |cs|
    ensures |ds| == |cs|
  {
    var first := cs[r := cs[r].(order := i)];
    first[i := first[i].(order := r)]
  }

  /** A step writes exactly positions i and r: card i ends with order r,
      card r (when it is another card) with order i. */
  lemma StepWrites(cs: seq<Card>, i: nat, r: nat)
    requires r <= i < |cs|
    ensures Step(cs, i, r)[i] == cs[i].(order := r)
    ensures r != i ==> Step(cs, i, r)[r] == cs[r].(order := i)
    ensures forall k :: 0 <= k < |cs| && k != i && k != r ==> Step(cs, i, r)[k] == cs[k]
  {
  }

  /** The board after the loop steps for indices i-1 down to 1. */
  function Shuffled(cs: seq<Card>, rs: seq<nat>, i: nat): (ds: seq<Card>)
    requires i <= |cs| && ValidChoices(rs, |cs|)
    decreases i
    ensures |ds| == |cs|
  {
    if i <= 1 then cs else Shuffled(Step(cs, i - 1, rs[i - 1]), rs, i - 1)
  }

  /** The positions the loop steps for indices i-1 down to 1 write: each step
      writes its own index and the index it drew. */
  function Written(rs: seq<nat>, i: nat): set<nat>
    requires i <= |rs|
  {
    if i <= 1 then {} else {i - 1, rs[i - 1]} + Written(rs, i - 1)
  }

  /** The shuffle changes nothing but the display order: every card keeps
      its face and its `show` and `matched` flags, and the board its length. */
  lemma {:induction false} ShuffledKeepsFaces(cs: seq<Card>, rs: seq<nat>, i: nat)
    requires i <= |cs| && ValidChoices(rs, |cs|)
    decreases i
    ensures |Shuffled(cs, rs, i)| == |cs|
    ensures forall k :: 0 <= k < |cs| ==>
              Shuffled(cs, rs, i)[k] == cs[k].(order := Shuffled(cs, rs, i)[k].order)
  {
    if i > 1 {
      var next := Step(cs, i - 1, rs[i - 1]);
      StepWrites(cs, i - 1, rs[i - 1]);
      ShuffledKeepsFaces(next, rs, i - 1);
    }
  }

  /** A position the loop never chose keeps its card unchanged, and every
      position it did choose ends with an order in [0, i-1]; for a whole
      shuffle (i = n) that is [0, n-1]. */
  lemma {:induction false} ShuffledWrites(cs: seq<Card>, rs: seq<nat>, i: nat)
    requires i <= |cs| && ValidChoices(rs, |cs|)
    decreases i
    ensures |Shuffled(cs, rs, i)| == |cs|
    ensures forall k :: 0 <= k < |cs| && k !in Written(rs, i) ==> Shuffled(cs, rs, i)[k] == cs[k]
    ensures forall k :: 0 <= k < |cs| && k in Written(rs, i) ==> 0 <= Shuffled(cs, rs, i)[k].order < i
  {
    ShuffledKeepsFaces(cs, rs, i);
    if i > 1 {
      var next := Step(cs, i - 1, rs[i - 1]);
      StepWrites(cs, i - 1, rs[i - 1]);
      ShuffledWrites(next, rs, i - 1);
      ShuffledKeepsFaces(next, rs, i - 1);
    }
  }

  /** Every index from 1 up to i-1 is written by its own loop step; only
      position 0 can escape the shuffle, and only when no step draws 0. */
  lemma {:induction false} WrittenCoversTail(rs: seq<nat>, i: nat)
    requires i <= |rs|
    ensures forall k: nat :: 1 <= k < i ==> k in Written(rs, i)
    ensures 0 in Written(rs, i) <==> exists j :: 1 <= j < i && rs[j] == 0
  {
    if i > 1 {
      WrittenCoversTail(rs, i - 1);
      if 0 in Written(rs, i - 1) {
        var j :| 1 <= j < i - 1 && rs[j] == 0;
        assert 1 <= j < i && rs[j] == 0;
      }
    }
  }

  /** With three cards and the draws 0 then 0, the loop leaves the orders
      [1, 0, 0] whatever they were: two cards share order 0 and no card has
      order 2, so the shuffle is not a permutation of display orders. */
  lemma ShuffleCanRepeatOrders(cs: seq<Card>)
    requires |cs| == 3
    ensures ValidChoices([0, 0, 0], 3)
    ensures var ds := Shuffled(cs, [0, 0, 0], 3);
            |ds| == 3 && ds[0].order == 1 && ds[1].order == 0 && ds[2].order == 0
  {
    var rs: seq<nat> := [0, 0, 0];
    assert ValidChoices(rs, 3);
    var after2 := Step(cs, 2, 0);
    StepWrites(cs, 2, 0);
    var after1 := Step(after2, 1, 0);
    StepWrites(after2, 1, 0);
    assert Shuffled(cs, rs, 3) == Shuffled(after2, rs, 2);
    assert Shuffled(after2, rs, 2) == Shuffled(after1, rs, 1) == after1;
  }
}
