/** The game-side command handlers of the client: creating and dropping a table's
    state, applying the server's game actions to it, and choosing our move. */
module Client {
  import opened Wrappers
  import opened Constants
  import opened Knowledge
  import opened GameStateModel
  import opened Hands
  import opened Actions
  import opened Policy

  class HanabiClient {
    /** Our user name, as the server's "welcome" message gave it. */
    var username: string
    /** The state of every table we are playing at, by table id. */
    var games: map<int, GameState>

    /** No two tables share a state record. */
    ghost predicate Valid()
      reads this
    {
      forall t, u :: t in games && u in games && t != u ==> games[t] != games[u]
    }

    constructor (username: string)
      ensures Valid() && this.username == username && games == map[]
    {
      this.username := username;
      games := map[];
    }

    /** The first seat whose name is ours, or -1 when we are not seated. */
    method FindOurIndex(names: seq<string>) returns (index: int)
      ensures index == IndexOfName(names, username)
    {
      index := -1;
      var i := 0;
      while i < |names|
        invariant i <= |names|
        invariant forall j :: 0 <= j < i ==> names[j] != username
      {
        if names[i] == username {
          index := i;
          break;
        }
        i := i + 1;
      }
    }

    /** "init": a new state record for the table, seating `names`, stored under the
        table's id (replacing any earlier record for that id). */
    method Init(tableId: int, names: seq<string>)
      requires Valid()
      modifies this
      ensures Valid() && username == old(username)
      ensures games.Keys == old(games.Keys) + {tableId}
      ensures fresh(games[tableId])
      ensures forall t :: t in old(games) && t != tableId ==> games[t] == old(games[t])
      ensures games[tableId].Snapshot() == InitialState(names, username)
    {
      var state := NewGameState(names);
      games := games[tableId := state];
    }

    /** The record "init" fills in: the players, our seat, and the empty hands, play
        stacks and discard dictionaries, all appended one by one. */
    method NewGameState(names: seq<string>) returns (state: GameState)
      ensures fresh(state)
      ensures state.Snapshot() == InitialState(names, username)
    {
      state := new GameState();
      state.players := names;

      state.ourIndex := FindOurIndex(names);
      AddEmptyHands(state, |names|);
      AddEmptyPlayStacks(state);
      AddEmptyDiscardPiles(state);
      assert state.hands == seq(|names|, _ => []);
      assert state.playStacks == seq(NUM_SUITS, _ => []);
      assert state.discardPile == seq(NUM_SUITS, _ => EmptyPile());
      assert state.Snapshot() == FreshState().(
        players := names,
        ourIndex := IndexOfName(names, username),
        hands := seq(|names|, _ => []),
        playStacks := seq(NUM_SUITS, _ => []),
        discardPile := seq(NUM_SUITS, _ => EmptyPile()));
    }

    /** One empty hand per player, appended one by one. */
    static method AddEmptyHands(state: GameState, n: nat)
      modifies state`hands
      ensures state.hands == old(state.hands) + seq(n, _ => [])
    {
      ghost var before := state.hands;
      for i := 0 to n
        invariant |state.hands| == |before| + i
        invariant state.hands[..|before|] == before
        invariant forall j :: |before| <= j < |state.hands| ==> state.hands[j] == []
      {
        state.hands := state.hands + [[]];
      }
    }

    /** Five empty play stacks, one per suit, appended one by one. */
    static method AddEmptyPlayStacks(state: GameState)
      modifies state`playStacks
      ensures state.playStacks == old(state.playStacks) + seq(NUM_SUITS, _ => [])
    {
      ghost var before := state.playStacks;
      for i := 0 to NUM_SUITS
        invariant |state.playStacks| == |before| + i
        invariant state.playStacks[..|before|] == before
        invariant forall j :: |before| <= j < |state.playStacks| ==> state.playStacks[j] == []
      {
        state.playStacks := state.playStacks + [[]];
      }
    }

    /** Five discard dictionaries, each with an empty list per rank, appended one by one. */
    static method AddEmptyDiscardPiles(state: GameState)
      modifies state`discardPile
      ensures state.discardPile == old(state.discardPile) + seq(NUM_SUITS, _ => EmptyPile())
    {
      ghost var before := state.discardPile;
      for i := 0 to NUM_SUITS
        invariant |state.discardPile| == |before| + i
        invariant state.discardPile[..|before|] == before
        invariant forall j :: |before| <= j < |state.discardPile| ==> state.discardPile[j] == EmptyPile()
      {
        state.discardPile := state.discardPile + [map[1 := [], 2 := [], 3 := [], 4 := [], 5 := []]];
      }
    }

    /** "databaseID": the game is over; forget its state. A table we hold no state for
        raises, as deleting a missing key does. */
    method DatabaseId(tableId: int) returns (outcome: Outcome)
      requires Valid()
      modifies this
      ensures Valid() && username == old(username)
      ensures games == old(games) - {tableId}
      ensures outcome == if tableId in old(games) then Applied else Raised(NoSuchTable)
    {
      if tableId !in games {
        return Raised(NoSuchTable);
      }
      games := games - {tableId};
      outcome := Applied;
    }

    /** findCardIndex: scan the whole hand, remembering the last position whose card
        has the order. */
    method FindCardIndex(hand: seq<Card>, order: int) returns (cardIndex: int)
      ensures cardIndex == CardIndex(hand, order)
    {
      cardIndex := -1;
      for i := 0 to |hand|
        invariant cardIndex == CardIndex(hand[..i], order)
      {
        assert hand[..i + 1][..i] == hand[..i];
        if hand[i].order == order {
          cardIndex := i;
        }
      }
      assert hand[..|hand|] == hand;
    }

    /** remove_card_from_hand: delete the card with the order from the seat's hand and
        return it with its position, or return nothing when no card has that order. */
    method RemoveCardFromHand(state: GameState, seat: int, order: int) returns (removed: Option<(Card, nat)>)
      requires 0 <= seat < |state.hands|
      modifies state`hands
      ensures var i := CardIndex(old(state.hands[seat]), order);
        && (i == -1 ==> removed == None && state.hands == old(state.hands))
        && (i != -1 ==> removed == Some((old(state.hands[seat][i]), i as nat)) &&
                        state.hands == old(state.hands)[seat := RemoveAt(old(state.hands[seat]), i)])
    {
      var hand := state.hands[seat];
      var cardIndex := FindCardIndex(hand, order);
      if cardIndex == -1 {
        return None;
      }
      var card := hand[cardIndex];
      state.hands := state.hands[seat := RemoveAt(hand, cardIndex)];
      removed := Some((card, cardIndex as nat));
    }

    /** The clue loop: every card of the target hand is updated in place, a touched card
        with the clue's mask and any other card with its complement. */
    method UpdateKnowledge(state: GameState, target: int, kind: ClueKind, value: int, touched: seq<int>)
      requires 0 <= target < |state.hands| && HandWellFormed(state.hands[target]) && ClueValueFits(kind, value)
      modifies state`hands
      ensures state.hands == old(state.hands)[target := ClueHand(old(state.hands[target]), kind, value, touched)]
    {
      ghost var hand := state.hands[target];
      var i := 0;
      while i < |state.hands[target]|
        invariant 0 <= i <= |hand|
        invariant |state.hands| == |old(state.hands)|
        invariant state.hands == old(state.hands)[target := state.hands[target]]
        invariant |state.hands[target]| == |hand|
        invariant forall j :: 0 <= j < i ==> state.hands[target][j] == ClueCard(hand[j], kind, value, touched)
        invariant forall j :: i <= j < |hand| ==> state.hands[target][j] == hand[j]
      {
        var card := state.hands[target][i];
        assert card in hand;
        state.hands := state.hands[target := state.hands[target][i := ClueCard(card, kind, value, touched)]];
        i := i + 1;
      }
      assert state.hands[target] == ClueHand(hand, kind, value, touched);
    }

    /** The "draw" branch: the new card goes to the back of the drawer's hand and the
        deck shrinks by one. */
    method ApplyDraw(state: GameState, who: int, order: int, suit: int, rank: int) returns (outcome: Outcome)
      requires ValidState(state.Snapshot()) && Fits(|state.hands|, Draw(who, order, suit, rank))
      modifies state
      ensures var r := Step(old(state.Snapshot()), Draw(who, order, suit, rank));
        state.Snapshot() == r.state && outcome == r.outcome
    {
      var hand := state.hands[who];
      state.hands := state.hands[who := hand + [NewCard(order, suit, rank)]];
      state.numCardsDeck := state.numCardsDeck - 1;
      outcome := Applied;
    }

    /** The "play" branch. */
    method ApplyPlay(state: GameState, seat: int, order: int) returns (outcome: Outcome)
      requires ValidState(state.Snapshot()) && Fits(|state.hands|, Play(seat, order))
      modifies state
      ensures var r := Step(old(state.Snapshot()), Play(seat, order));
        state.Snapshot() == r.state && outcome == r.outcome
    {
      ghost var hand := state.hands[seat];
      var removed := RemoveCardFromHand(state, seat, order);
      if removed.None? {
        return Raised(CardNotFound);
      }
      var card, index := removed.value.0, removed.value.1;
      assert card in hand;
      // The card keeps the suit it was drawn with; hand_index is set on the same
      // dictionary after it is appended, so the stacked card carries it.
      var placed := card.(handIndex := Some(index as int));
      var k := PyIndex(placed.suit, NUM_SUITS);
      state.playStacks := state.playStacks[k := state.playStacks[k] + [placed]];
      // Copying the action into last_action reads current_turn.
      outcome := if state.currentTurn.None? then Raised(CurrentTurnUnset) else Applied;
    }

    /** The "discard" branch, misplays included. */
    method ApplyDiscard(state: GameState, seat: int, order: int, suit: int, rank: int, failed: bool)
      returns (outcome: Outcome)
      requires ValidState(state.Snapshot()) && Fits(|state.hands|, Discard(seat, order, suit, rank, failed))
      modifies state
      ensures var r := Step(old(state.Snapshot()), Discard(seat, order, suit, rank, failed));
        state.Snapshot() == r.state && outcome == r.outcome
    {
      var removed := RemoveCardFromHand(state, seat, order);
      if removed.None? {
        return Raised(CardNotFound);
      }
      var card, index := removed.value.0, removed.value.1;
      var placed := card.(handIndex := Some(index as int));
      var k := PyIndex(suit, NUM_SUITS);
      var pile := state.discardPile[k];
      state.discardPile := state.discardPile[k := pile[rank := pile[rank] + [placed]]];
      outcome := Applied;
      if !failed {
        // Discarding returns a clue token, never beyond the maximum.
        state.clueTokens := state.clueTokens + 1;
        state.clueTokens := Min(state.clueTokens, MAX_CLUE_NUM);
        outcome := if state.currentTurn.None? then Raised(CurrentTurnUnset) else Applied;
      }
    }

    /** The "clue" branch: pay the token, then (once a turn has been seen) update the
        clued hand. */
    method ApplyClue(state: GameState, kind: ClueKind, value: int, target: int, touched: seq<int>)
      returns (outcome: Outcome)
      requires ValidState(state.Snapshot()) && Fits(|state.hands|, Clue(kind, value, target, touched))
      modifies state
      ensures var r := Step(old(state.Snapshot()), Clue(kind, value, target, touched));
        state.Snapshot() == r.state && outcome == r.outcome
    {
      state.clueTokens := state.clueTokens - 1;
      if state.currentTurn.None? {
        return Raised(CurrentTurnUnset);
      }
      UpdateKnowledge(state, target, kind, value, touched);
      outcome := Applied;
    }

    /** handle_action: apply one game action to the table's state. */
    method HandleAction(a: Action, tableId: int) returns (outcome: Outcome)
      requires Valid()
      requires tableId in games ==> ValidState(games[tableId].Snapshot()) && Fits(|games[tableId].hands|, a)
      modifies if tableId in games then {games[tableId]} else {}
      ensures tableId !in games ==> outcome == Raised(NoSuchTable)
      ensures tableId in games ==>
        var r := Step(old(games[tableId].Snapshot()), a);
        games[tableId].Snapshot() == r.state && outcome == r.outcome
      ensures forall t :: t in games && t != tableId ==> games[t].Snapshot() == old(games[t].Snapshot())
    {
      if tableId !in games {
        return Raised(NoSuchTable);
      }
      var state := games[tableId];
      match a {
        case Draw(who, order, suit, rank) =>
          outcome := ApplyDraw(state, who, order, suit, rank);
        case Play(seat, order) =>
          outcome := ApplyPlay(state, seat, order);
        case Discard(seat, order, suit, rank, failed) =>
          outcome := ApplyDiscard(state, seat, order, suit, rank, failed);
        case Clue(kind, value, target, touched) =>
          outcome := ApplyClue(state, kind, value, target, touched);
        case Turn(num, who) =>
          state.turn := num;
          state.currentTurn := Some(who);
          outcome := Applied;
        case Strike =>
          state.lifeTokens := state.lifeTokens - 1;
          outcome := if state.currentTurn.None? then Raised(CurrentTurnUnset) else Applied;
        case Other(_) =>
          outcome := Applied;
      }
    }

    /** "gameAction": one live action. */
    method GameAction(tableId: int, a: Action) returns (outcome: Outcome)
      requires Valid()
      requires tableId in games ==> ValidState(games[tableId].Snapshot()) && Fits(|games[tableId].hands|, a)
      modifies if tableId in games then {games[tableId]} else {}
      ensures tableId !in games ==> outcome == Raised(NoSuchTable)
      ensures tableId in games ==>
        var r := Replay(old(games[tableId].Snapshot()), [a]);
        games[tableId].Snapshot() == r.state && outcome == r.outcome
      ensures forall t :: t in games && t != tableId ==> games[t].Snapshot() == old(games[t].Snapshot())
    {
      outcome := HandleAction(a, tableId);
    }

    /** "gameActionList": the actions so far, applied in order with the single-action
        rule; an action that raises ends the list. */
    method GameActionList(tableId: int, actions: seq<Action>) returns (outcome: Outcome)
      requires Valid()
      requires tableId in games ==> ValidState(games[tableId].Snapshot()) && AllFit(|games[tableId].hands|, actions)
      modifies if tableId in games then {games[tableId]} else {}
      ensures tableId !in games ==> outcome == if actions == [] then Applied else Raised(NoSuchTable)
      ensures tableId in games ==>
        var r := Replay(old(games[tableId].Snapshot()), actions);
        games[tableId].Snapshot() == r.state && outcome == r.outcome
      ensures forall t :: t in games && t != tableId ==> games[t].Snapshot() == old(games[t].Snapshot())
    {
      outcome := Applied;
      var i := 0;
      while i < |actions|
        invariant 0 <= i <= |actions|
        invariant outcome == Applied
        invariant tableId !in games ==> i == 0
        invariant tableId in games ==>
          && ValidState(games[tableId].Snapshot())
          && |games[tableId].hands| == |old(games[tableId].hands)|
          && Replay(old(games[tableId].Snapshot()), actions[..i]) == StepResult(games[tableId].Snapshot(), Applied)
        invariant forall t :: t in games && t != tableId ==> games[t].Snapshot() == old(games[t].Snapshot())
      {
        ghost var before := if tableId in games then games[tableId].Snapshot() else FreshState();
        outcome := HandleAction(actions[i], tableId);
        if tableId in games {
          ghost var s0 := old(games[tableId].Snapshot());
          assert Fits(|s0.hands|, actions[i]);
          assert AllFit(|s0.hands|, actions[..i]);
          ReplayAppend(s0, actions[..i], actions[i]);
          assert actions[..i] + [actions[i]] == actions[..i + 1];
          if outcome.Raised? {
            ReplayStops(s0, actions[..i + 1], actions[i + 1..]);
            assert actions[..i + 1] + actions[i + 1..] == actions;
          }
        }
        if outcome.Raised? {
          return;
        }
        i := i + 1;
      }
      assert actions[..i] == actions;
    }

    /** "yourTurn": the move the policy picks for the table, or nothing for a table we
        hold no state for (the lookup raises). */
    method DecideAction(tableId: int) returns (decision: Option<Decision>)
      requires tableId in games ==> CanDecide(games[tableId].Snapshot())
      ensures tableId !in games ==> decision == None
      ensures tableId in games ==> decision == Some(ChooseAction(games[tableId].Snapshot()))
    {
      if tableId !in games {
        return None;
      }
      var state := games[tableId];
      decision := Some(ChooseAction(state.Snapshot()));
    }
  }
}
