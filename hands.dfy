/** Operations on a single hand: finding a card by its order, removing it, and
    applying a clue's knowledge update to every card of the clued hand. */
module Hands {
  import opened Constants
  import opened Knowledge
  import opened GameStateModel

  /** The position of the card with the given order: the LAST such position, since the
      scan never stops early, or -1 when no card has that order. */
  function CardIndex(hand: seq<Card>, order: int): (i: int)
    ensures -1 <= i < |hand|
    ensures i == -1 <==> forall j :: 0 <= j < |hand| ==> hand[j].order != order
    ensures 0 <= i ==> hand[i].order == order && forall j :: i < j < |hand| ==> hand[j].order != order
    decreases |hand|
  {
    if hand == [] then -1
    else if hand[|hand| - 1].order == order then |hand| - 1
    else CardIndex(hand[..|hand| - 1], order)
  }

  /** The hand without the card at position `i`; the other cards keep their order. */
  function RemoveAt(hand: seq<Card>, i: nat): (r: seq<Card>)
    requires i < |hand|
    ensures |r| == |hand| - 1
    ensures forall j :: 0 <= j < i ==> r[j] == hand[j]
    ensures forall j :: i <= j < |r| ==> r[j] == hand[j + 1]
    ensures multiset(r) + multiset{hand[i]} == multiset(hand)
  {
    assert hand == hand[..i] + [hand[i]] + hand[i + 1..];
    hand[..i] + hand[i + 1..]
  }

  /** Clue values the clue loop can handle: a color 0..4, or a 1-based rank 1..5. */
  predicate ClueValueFits(kind: ClueKind, value: int) {
    match kind
    case ColorClue => 0 <= value < NUM_SUITS
    case RankClue => 1 <= value <= NUM_RANKS
  }

  /** What one clue does to one card of the clued hand. A card whose order is in
      `touched` records the clue and keeps only the identities the clue names; any
      other card of that hand loses exactly those identities. */
  function ClueCard(c: Card, kind: ClueKind, value: int, touched: seq<int>): (r: Card)
    requires WellFormedCard(c) && ClueValueFits(kind, value)
    ensures WellFormedCard(r)
    ensures r.order == c.order && r.suit == c.suit && r.rank == c.rank && r.handIndex == c.handIndex
    ensures Within(r.knowledge, c.knowledge)
    ensures c.order in touched ==> forall color, rank :: 0 <= color < NUM_SUITS && 0 <= rank < NUM_RANKS ==>
      r.knowledge[Cell(color, rank)] == (c.knowledge[Cell(color, rank)] && Selects(kind, value, color, rank))
    ensures c.order !in touched ==> forall color, rank :: 0 <= color < NUM_SUITS && 0 <= rank < NUM_RANKS ==>
      r.knowledge[Cell(color, rank)] == (c.knowledge[Cell(color, rank)] && !Selects(kind, value, color, rank))
    ensures c.order in touched && kind == ColorClue ==> r.colorClues == c.colorClues[value := true] && r.rankClues == c.rankClues
    ensures c.order in touched && kind == RankClue ==> r.rankClues == c.rankClues[value - 1 := true] && r.colorClues == c.colorClues
    ensures c.order !in touched ==> r.colorClues == c.colorClues && r.rankClues == c.rankClues
  {
    if c.order in touched then
      c.(colorClues := if kind == ColorClue then c.colorClues[value := true] else c.colorClues,
         rankClues := if kind == RankClue then c.rankClues[value - 1 := true] else c.rankClues,
         knowledge := Meet(c.knowledge, ClueMask(kind, value)))
    else
      c.(knowledge := Meet(c.knowledge, ComplementMask(kind, value)))
  }

  /** The clued hand after the clue loop: every card updated in place, none added,
      removed or moved. */
  function ClueHand(hand: seq<Card>, kind: ClueKind, value: int, touched: seq<int>): (r: seq<Card>)
    requires HandWellFormed(hand) && ClueValueFits(kind, value)
    ensures |r| == |hand| && HandWellFormed(r)
    ensures forall j :: 0 <= j < |r| ==> r[j] == ClueCard(hand[j], kind, value, touched)
  {
    seq(|hand|, j requires 0 <= j < |hand| => ClueCard(hand[j], kind, value, touched))
  }

  /** Giving the same clue to a hand a second time changes nothing. */
  lemma ClueHandIdempotent(hand: seq<Card>, kind: ClueKind, value: int, touched: seq<int>)
    requires HandWellFormed(hand) && ClueValueFits(kind, value)
    ensures ClueHand(ClueHand(hand, kind, value, touched), kind, value, touched) == ClueHand(hand, kind, value, touched)
  {
    var once := ClueHand(hand, kind, value, touched);
    var twice := ClueHand(once, kind, value, touched);
    forall j | 0 <= j < |hand|
      ensures twice[j] == once[j]
    {
      var c := hand[j];
      assert c in hand;
      assert once[j] == ClueCard(c, kind, value, touched) && once[j].order == c.order;
      if c.order in touched {
        MeetShrinksAndSettles(c.knowledge, ClueMask(kind, value));
        if kind == ColorClue {
          assert c.colorClues[value := true][value := true] == c.colorClues[value := true];
        } else {
          assert c.rankClues[value - 1 := true][value - 1 := true] == c.rankClues[value - 1 := true];
        }
      } else {
        MeetShrinksAndSettles(c.knowledge, ComplementMask(kind, value));
      }
    }
  }

  /** Nothing stops two clues from contradicting each other: a card touched by a rank
      clue of 1 and then by a rank clue of 2 is left with no possible identity, and the
      update goes through like any other. */
  lemma ContradictoryCluesEmptyKnowledge(c: Card, touched: seq<int>)
    requires WellFormedCard(c) && c.order in touched
    ensures var r := ClueCard(ClueCard(c, RankClue, 1, touched), RankClue, 2, touched);
      forall color, rank :: 0 <= color < NUM_SUITS && 0 <= rank < NUM_RANKS ==> !r.knowledge[Cell(color, rank)]
  {
  }
}
