/** The per-table game state record and the cards it holds. */
module GameStateModel {
  import opened Wrappers
  import opened Constants
  import opened Knowledge

  /** A card as the client stores it when it is drawn. `suit` and `rank` are what the
      draw event revealed (-1 when the server withholds them, for our own cards);
      `colorClues`/`rankClues` record which clue values have touched the card;
      `handIndex` is set when the card leaves its hand. */
  datatype Card = Card(
    order: int,
    suit: int,
    rank: int,
    knowledge: Belief,
    colorClues: seq<bool>,
    rankClues: seq<bool>,
    handIndex: Option<int>)

  /** A card as drawn: nothing known from clues yet. */
  function NewCard(order: int, suit: int, rank: int): (c: Card)
    ensures c.order == order && c.suit == suit && c.rank == rank && c.handIndex == None
    ensures c.knowledge == Unknown()
    ensures |c.colorClues| == NUM_SUITS && |c.rankClues| == NUM_RANKS
    ensures forall k :: 0 <= k < NUM_SUITS ==> !c.colorClues[k] && !c.rankClues[k]
  {
    Card(order, suit, rank, Unknown(), seq(NUM_SUITS, _ => false), seq(NUM_RANKS, _ => false), None)
  }

  /** A card the client can work on: full-size vectors, and a suit that indexes the
      list of play stacks the way Python does (negative values count from the end). */
  predicate WellFormedCard(c: Card) {
    && |c.knowledge| == CELLS
    && |c.colorClues| == NUM_SUITS
    && |c.rankClues| == NUM_RANKS
    && -NUM_SUITS <= c.suit < NUM_SUITS
  }

  predicate HandWellFormed(hand: seq<Card>) {
    forall c :: c in hand ==> WellFormedCard(c)
  }

  /** One suit's discard pile: a dictionary keyed by the ranks 1..5. */
  type Pile = map<int, seq<Card>>

  predicate PileShape(p: Pile) {
    p.Keys == {1, 2, 3, 4, 5}
  }

  function EmptyPile(): (p: Pile)
    ensures PileShape(p) && forall r :: r in p ==> p[r] == []
  {
    map[1 := [], 2 := [], 3 := [], 4 := [], 5 := []]
  }

  /** The value of a table's state at one moment. `currentTurn` is None until the
      first "turn" action: the record declares no such attribute. */
  datatype State = State(
    clueTokens: int,
    players: seq<string>,
    ourIndex: int,
    hands: seq<seq<Card>>,
    playStacks: seq<seq<Card>>,
    discardPile: seq<Pile>,
    turn: int,
    numCardsDeck: int,
    lifeTokens: int,
    currentTurn: Option<int>)

  /** The shape every initialised table keeps: one hand per player, five play stacks,
      five rank-keyed discard dictionaries, and well-formed cards in every hand. */
  predicate ValidState(s: State) {
    && |s.hands| == |s.players|
    && |s.playStacks| == NUM_SUITS
    && |s.discardPile| == NUM_SUITS
    && (forall k :: 0 <= k < |s.discardPile| ==> PileShape(s.discardPile[k]))
    && (forall w :: 0 <= w < |s.hands| ==> HandWellFormed(s.hands[w]))
  }

  /** The record's initial values, before a table's "init" fills it in. */
  function FreshState(): State {
    State(MAX_CLUE_NUM, [], -1, [], [], [], -1, MAX_DECK, MAX_TOKENS, None)
  }

  /** Our seat: the first position holding `name`, or -1 when no seat does. */
  function IndexOfName(names: seq<string>, name: string): (i: int)
    ensures -1 <= i < |names|
    ensures i == -1 <==> name !in names
    ensures 0 <= i ==> names[i] == name && forall j :: 0 <= j < i ==> names[j] != name
  {
    if names == [] then -1
    else if names[0] == name then 0
    else
      var rest := IndexOfName(names[1..], name);
      if rest == -1 then -1 else rest + 1
  }

  /** The state "init" builds for a table seating `names`, seen by the user `username`. */
  function InitialState(names: seq<string>, username: string): (s: State)
    ensures ValidState(s)
    ensures s.players == names && s.ourIndex == IndexOfName(names, username)
    ensures forall w :: 0 <= w < |s.hands| ==> s.hands[w] == []
    ensures forall k :: 0 <= k < NUM_SUITS ==> s.playStacks[k] == [] && s.discardPile[k] == EmptyPile()
    ensures s.clueTokens == MAX_CLUE_NUM && s.lifeTokens == MAX_TOKENS && s.numCardsDeck == MAX_DECK
    ensures s.turn == -1 && s.currentTurn == None
  {
    FreshState().(
      players := names,
      ourIndex := IndexOfName(names, username),
      hands := seq(|names|, _ => []),
      playStacks := seq(NUM_SUITS, _ => []),
      discardPile := seq(NUM_SUITS, _ => EmptyPile()))
  }

  /** The mutable record of one table. Its fields are updated in place by the client. */
  class GameState {
    var clueTokens: int
    var players: seq<string>
    var ourIndex: int
    var hands: seq<seq<Card>>
    var playStacks: seq<seq<Card>>
    var discardPile: seq<Pile>
    var turn: int
    var numCardsDeck: int
    var lifeTokens: int
    var currentTurn: Option<int>

    /** A new record holds the declared defaults. */
    constructor ()
      ensures clueTokens == MAX_CLUE_NUM && lifeTokens == MAX_TOKENS && numCardsDeck == MAX_DECK
      ensures players == [] && hands == [] && playStacks == [] && discardPile == []
      ensures ourIndex == -1 && turn == -1 && currentTurn == None
      ensures Snapshot() == FreshState()
    {
      clueTokens := MAX_CLUE_NUM;
      players := [];
      ourIndex := -1;
      hands := [];
      playStacks := [];
      discardPile := [];
      turn := -1;
      numCardsDeck := MAX_DECK;
      lifeTokens := MAX_TOKENS;
      currentTurn := None;
    }

    /** The record's current value. */
    function Snapshot(): State
      reads this
    {
      State(clueTokens, players, ourIndex, hands, playStacks, discardPile, turn,
            numCardsDeck, lifeTokens, currentTurn)
    }
  }
}
