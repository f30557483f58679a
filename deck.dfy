/** The cards of a Mix-or-Match board and the facts about card indices that
    the game state machine relies on. */
module Deck {

  /** One card of the board. `typeId` is the face that decides a match (the
      image source of the card's face in the browser); `show` and `matched`
      are the two visual classes the game toggles; `order` is the display
      position the shuffle assigns. */
  datatype Card = Card(typeId: int, show: bool, matched: bool, order: int)

  /** The faces of a board, position by position. */
  function TypeIds(cs: seq<Card>): (ts: seq<int>)
    ensures |ts| == |cs|
    ensures forall i :: 0 <= i < |cs| ==> ts[i] == cs[i].typeId
  {
    if cs == [] then [] else [cs[0].typeId] + TypeIds(cs[1..])
  }

  /** No index occurs twice. */
  predicate Distinct(s: seq<nat>)
  {
    forall i, j :: 0 <= i < j < |s| ==> s[i] != s[j]
  }

  /** Every index addresses a card of an `n`-card board. */
  predicate WithinDeck(s: seq<nat>, n: nat)
  {
    forall k :: 0 <= k < |s| ==> s[k] < n
  }

  function Elements(s: seq<nat>): set<nat>
  {
    set x | x in s
  }

  /** The indices of an `n`-card board. */
  function Positions(n: nat): (ps: set<nat>)
    ensures |ps| == n
    ensures forall c: nat :: c in ps <==> c < n
  {
    if n == 0 then {} else Positions(n - 1) + {n - 1}
  }

  lemma {:induction false} DistinctElements(s: seq<nat>)
    requires Distinct(s)
    ensures |Elements(s)| == |s|
  {
    if s != [] {
      DistinctElements(s[1..]);
      assert Elements(s) == {s[0]} + Elements(s[1..]);
      forall j | 0 <= j < |s| - 1
        ensures s[1..][j] != s[0]
      {
        assert s[1..][j] == s[j + 1];
      }
    }
  }

  lemma {:induction false} SubsetSize(a: set<nat>, b: set<nat>)
    requires a <= b
    ensures |a| <= |b|
  {
    if a != {} {
      var x :| x in a;
      SubsetSize(a - {x}, b - {x});
    }
  }

  /** A list of distinct card indices of an `n`-card board never holds more
      than `n` entries. */
  lemma DistinctWithinBound(s: seq<nat>, n: nat)
    requires Distinct(s) && WithinDeck(s, n)
    ensures |s| <= n
  {
    DistinctElements(s);
    SubsetSize(Elements(s), Positions(n));
  }

  /** When such a list has exactly `n` entries, every card of the board is in it. */
  lemma DistinctFullCoversDeck(s: seq<nat>, n: nat)
    requires Distinct(s) && WithinDeck(s, n) && |s| == n
    ensures forall c: nat :: c < n ==> c in s
  {
    DistinctElements(s);
    forall c: nat | c < n
      ensures c in s
    {
      if c !in s {
        SubsetSize(Elements(s), Positions(n) - {c});
      }
    }
  }

  /** The pair assumption of a board with faces `types`: `pairs` splits the
      board into pairs of distinct cards with equal faces, no card in two
      pairs. */
  predicate Paired(types: seq<int>, pairs: seq<(nat, nat)>)
  {
    && 2 * |pairs| == |types|
    && (forall k :: 0 <= k < |pairs| ==>
          && pairs[k].0 < |types| && pairs[k].1 < |types| && pairs[k].0 != pairs[k].1
          && types[pairs[k].0] == types[pairs[k].1])
    && (forall j, k :: 0 <= j < k < |pairs| ==>
          && pairs[j].0 != pairs[k].0 && pairs[j].0 != pairs[k].1
          && pairs[j].1 != pairs[k].0 && pairs[j].1 != pairs[k].1)
  }

  /** The matched list after each pair is matched in turn, its first card
      clicked first: the game records the second card, then the first. */
  function Played(pairs: seq<(nat, nat)>): (s: seq<nat>)
    ensures |s| == 2 * |pairs|
    ensures forall x :: x in s ==> exists k :: 0 <= k < |pairs| && (x == pairs[k].0 || x == pairs[k].1)
  {
    if pairs == [] then []
    else
      var last := pairs[|pairs| - 1];
      Played(pairs[..|pairs| - 1]) + [last.1, last.0]
  }

  /** Under a pairing, the cards of the next pair are not among those
      already played, and playing it extends the played list by that pair. */
  lemma NextPairUnplayed(types: seq<int>, pairs: seq<(nat, nat)>, k: nat)
    requires Paired(types, pairs) && k < |pairs|
    ensures pairs[k].0 !in Played(pairs[..k]) && pairs[k].1 !in Played(pairs[..k])
    ensures Played(pairs[..k + 1]) == Played(pairs[..k]) + [pairs[k].1, pairs[k].0]
  {
    forall x | x in Played(pairs[..k])
      ensures x != pairs[k].0 && x != pairs[k].1
    {
      var j :| 0 <= j < k && (x == pairs[..k][j].0 || x == pairs[..k][j].1);
      assert pairs[..k][j] == pairs[j];
    }
    assert pairs[..k + 1][..k] == pairs[..k];
  }
}
