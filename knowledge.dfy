/** The clue knowledge ("belief") vectors the client keeps for every card in a hand:
    one 0/1 entry per (color, rank) identity, stored at index color * 5 + rank. */
module Knowledge {
  import opened Constants

  /** The wire value 0 of a clue's type is a color clue, 1 a rank clue. */
  datatype ClueKind = ColorClue | RankClue

  /** A knowledge vector; entry `Cell(color, rank)` is true while that identity is still possible. */
  type Belief = seq<bool>

  /** Number of entries of a knowledge vector. */
  const CELLS := NUM_SUITS * NUM_RANKS

  /** Where identity (color, rank) lives in a knowledge vector; both are 0-based. */
  function Cell(color: int, rank: int): int {
    color * NUM_RANKS + rank
  }

  lemma CellBounds(color: int, rank: int)
    requires 0 <= color < NUM_SUITS && 0 <= rank < NUM_RANKS
    ensures 0 <= Cell(color, rank) < CELLS
    ensures Cell(color, rank) / NUM_RANKS == color && Cell(color, rank) % NUM_RANKS == rank
  {
  }

  /** Whether a clue of the given kind and wire value names identity (color, rank).
      Color values are 0-based; rank values on the wire are 1-based, so a rank
      clue of value v names the 0-based rank v - 1. */
  predicate Selects(kind: ClueKind, value: int, color: int, rank: int) {
    match kind
    case ColorClue => color == value
    case RankClue => rank == value - 1
  }

  /** The vector the clue loop fills: entry `Cell(color, rank)` is set exactly when
      the clue names (color, rank). */
  function ClueMask(kind: ClueKind, value: int): (m: Belief)
    ensures |m| == CELLS
    ensures forall color, rank :: 0 <= color < NUM_SUITS && 0 <= rank < NUM_RANKS ==>
      m[Cell(color, rank)] == Selects(kind, value, color, rank)
  {
    var m := seq(CELLS, i => Selects(kind, value, i / NUM_RANKS, i % NUM_RANKS));
    forall color, rank | 0 <= color < NUM_SUITS && 0 <= rank < NUM_RANKS
      ensures m[Cell(color, rank)] == Selects(kind, value, color, rank)
    {
      CellBounds(color, rank);
    }
    m
  }

  /** The vector built for the cards a clue does not touch: ones except where the clue names the identity. */
  function ComplementMask(kind: ClueKind, value: int): (m: Belief)
    ensures |m| == CELLS
    ensures forall color, rank :: 0 <= color < NUM_SUITS && 0 <= rank < NUM_RANKS ==>
      m[Cell(color, rank)] == !Selects(kind, value, color, rank)
  {
    var mask := ClueMask(kind, value);
    seq(CELLS, i requires 0 <= i < CELLS => !mask[i])
  }

  /** Entry-wise AND of two vectors of equal length (the zip-and comprehension). */
  function Meet(a: Belief, b: Belief): (r: Belief)
    requires |a| == |b|
    ensures |r| == |a|
    ensures forall i :: 0 <= i < |r| ==> r[i] == (a[i] && b[i])
  {
    seq(|a|, i requires 0 <= i < |a| => a[i] && b[i])
  }

  /** `a` allows no identity that `b` rules out. */
  predicate Within(a: Belief, b: Belief) {
    |a| == |b| && forall i :: 0 <= i < |a| ==> a[i] ==> b[i]
  }

  /** The knowledge a card has right after it is drawn: every identity possible. */
  function Unknown(): (b: Belief)
    ensures |b| == CELLS && forall i :: 0 <= i < CELLS ==> b[i]
  {
    seq(CELLS, _ => true)
  }

  /** Meeting with a mask never adds a possibility, and meeting twice with the same
      mask is the same as meeting once. */
  lemma MeetShrinksAndSettles(a: Belief, m: Belief)
    requires |a| == |m|
    ensures Within(Meet(a, m), a)
    ensures Meet(Meet(a, m), m) == Meet(a, m)
  {
  }
}
