/** Card conservation: every action moves cards between the deck, the hands, the play
    stacks and the discard piles, and never creates or loses one. */
module Conservation {
  import opened Wrappers
  import opened Constants
  import opened GameStateModel
  import opened Hands
  import opened Actions

  /** Number of cards in a list of card lists (the hands, or the play stacks). */
  function CardCount(lists: seq<seq<Card>>): nat
    decreases |lists|
  {
    if lists == [] then 0 else |lists[0]| + CardCount(lists[1..])
  }

  /** Number of cards filed under rank `r` of one discard dictionary. */
  function RankCount(p: Pile, r: int): nat {
    if r in p then |p[r]| else 0
  }

  /** Number of cards in one suit's discard dictionary. */
  function PileCount(p: Pile): nat {
    RankCount(p, 1) + RankCount(p, 2) + RankCount(p, 3) + RankCount(p, 4) + RankCount(p, 5)
  }

  /** Number of cards in the whole discard pile. */
  function PilesCount(piles: seq<Pile>): nat
    decreases |piles|
  {
    if piles == [] then 0 else PileCount(piles[0]) + PilesCount(piles[1..])
  }

  /** The deck count plus every card the state holds anywhere. */
  function Total(s: State): int {
    s.numCardsDeck + CardCount(s.hands) + CardCount(s.playStacks) + PilesCount(s.discardPile)
  }

  /** Replacing one list changes the count by the difference in that list's length. */
  lemma {:induction false} CardCountUpdate(lists: seq<seq<Card>>, i: nat, l: seq<Card>)
    requires i < |lists|
    ensures CardCount(lists[i := l]) == CardCount(lists) - |lists[i]| + |l|
    decreases |lists|
  {
    if i == 0 {
      assert lists[i := l][1..] == lists[1..];
    } else {
      assert lists[i := l][1..] == lists[1..][i - 1 := l];
      CardCountUpdate(lists[1..], i - 1, l);
    }
  }

  lemma {:induction false} PilesCountUpdate(piles: seq<Pile>, i: nat, p: Pile)
    requires i < |piles|
    ensures PilesCount(piles[i := p]) == PilesCount(piles) - PileCount(piles[i]) + PileCount(p)
    decreases |piles|
  {
    if i == 0 {
      assert piles[i := p][1..] == piles[1..];
    } else {
      assert piles[i := p][1..] == piles[1..][i - 1 := p];
      PilesCountUpdate(piles[1..], i - 1, p);
    }
  }

  lemma {:induction false} CardCountAllEmpty(lists: seq<seq<Card>>)
    requires forall k :: 0 <= k < |lists| ==> lists[k] == []
    ensures CardCount(lists) == 0
    decreases |lists|
  {
    if lists != [] {
      CardCountAllEmpty(lists[1..]);
    }
  }

  lemma {:induction false} PilesCountAllEmpty(piles: seq<Pile>)
    requires forall k :: 0 <= k < |piles| ==> piles[k] == EmptyPile()
    ensures PilesCount(piles) == 0
    decreases |piles|
  {
    if piles != [] {
      PilesCountAllEmpty(piles[1..]);
    }
  }

  /** A freshly initialised table holds every card of the deck in the deck. */
  lemma InitialTotal(names: seq<string>, username: string)
    ensures Total(InitialState(names, username)) == MAX_DECK
  {
    var s := InitialState(names, username);
    CardCountAllEmpty(s.hands);
    CardCountAllEmpty(s.playStacks);
    PilesCountAllEmpty(s.discardPile);
  }

  /** No single action changes the number of cards. */
  lemma StepConserves(s: State, a: Action)
    requires ValidState(s) && Fits(|s.hands|, a)
    ensures Total(Step(s, a).state) == Total(s)
  {
    var r := Step(s, a).state;
    match a {
      case Draw(who, order, suit, rank) =>
        CardCountUpdate(s.hands, who, s.hands[who] + [NewCard(order, suit, rank)]);
      case Play(seat, order) =>
        var i := CardIndex(s.hands[seat], order);
        if i != -1 {
          assert s.hands[seat][i] in s.hands[seat];
          var card := s.hands[seat][i].(handIndex := Some(i));
          var k := PyIndex(card.suit, NUM_SUITS);
          CardCountUpdate(s.hands, seat, RemoveAt(s.hands[seat], i));
          CardCountUpdate(s.playStacks, k, s.playStacks[k] + [card]);
        }
      case Discard(seat, order, suit, rank, failed) =>
        var i := CardIndex(s.hands[seat], order);
        if i != -1 {
          var card := s.hands[seat][i].(handIndex := Some(i));
          var k := PyIndex(suit, NUM_SUITS);
          var pile := s.discardPile[k];
          var pile' := pile[rank := pile[rank] + [card]];
          CardCountUpdate(s.hands, seat, RemoveAt(s.hands[seat], i));
          assert PileCount(pile') == PileCount(pile) + 1;
          PilesCountUpdate(s.discardPile, k, pile');
        }
      case Clue(kind, value, target, touched) =>
        if s.currentTurn.Some? {
          CardCountUpdate(s.hands, target, ClueHand(s.hands[target], kind, value, touched));
        }
      case Turn(_, _) =>
      case Strike =>
      case Other(_) =>
    }
  }

  /** No list of actions changes the number of cards. */
  lemma {:induction false} ReplayConserves(s: State, actions: seq<Action>)
    requires ValidState(s) && AllFit(|s.hands|, actions)
    ensures Total(Replay(s, actions).state) == Total(s)
    decreases |actions|
  {
    if actions != [] {
      StepConserves(s, actions[0]);
      var first := Step(s, actions[0]);
      if !first.outcome.Raised? {
        ReplayConserves(first.state, actions[1..]);
      }
    }
  }

  /** From a freshly initialised table, the deck count plus the cards in hands, stacks
      and discard piles stays equal to the deck size whatever actions arrive. */
  lemma DeckSizeIsInvariant(names: seq<string>, username: string, actions: seq<Action>)
    requires AllFit(|names|, actions)
    ensures Total(Replay(InitialState(names, username), actions).state) == MAX_DECK
  {
    InitialTotal(names, username);
    ReplayConserves(InitialState(names, username), actions);
  }
}
