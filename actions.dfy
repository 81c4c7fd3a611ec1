/** The game actions the server sends and what applying one does to a table's state. */
module Actions {
  import opened Wrappers
  import opened Constants
  import opened Knowledge
  import opened GameStateModel
  import opened Hands

  /** One game action, by its "type" field. `Other` is any type the client has no branch for:
      its name is never one of `HANDLED_TYPES` (`Fits` says so). */
  datatype Action =
    | Draw(who: int, order: int, suit: int, rank: int)
    | Play(seat: int, order: int)
    | Discard(seat: int, order: int, suit: int, rank: int, failed: bool)
    | Clue(kind: ClueKind, value: int, target: int, touched: seq<int>)
    | Turn(num: int, who: int)
    | Strike
    | Other(name: string)

  /** The exceptions an action can raise in the client. Each is caught by the message
      loop, so it ends only the action (and the rest of an action list). */
  datatype Fault =
    | CardNotFound      // unpacking the bare None of a failed removal (TypeError)
    | CurrentTurnUnset  // reading current_turn before any "turn" action (AttributeError)
    | NoSuchTable       // a table id missing from the games dictionary (KeyError)

  datatype Outcome = Applied | Raised(fault: Fault)

  datatype StepResult = StepResult(state: State, outcome: Outcome)

  /** The fields an action's branch uses as indexes are in range for a table of
      `players` seats: seats are 0-based; a drawn suit may be the server's -1 for
      "unknown" (it indexes the play stacks from the end); a discard names a real
      suit and a rank 1..5; a clue value is one the clue loop can record. */
  predicate Fits(players: nat, a: Action) {
    match a
    case Draw(who, _, suit, _) => 0 <= who < players && -NUM_SUITS <= suit < NUM_SUITS
    case Play(seat, _) => 0 <= seat < players
    case Discard(seat, _, suit, rank, _) => 0 <= seat < players && -NUM_SUITS <= suit < NUM_SUITS && 1 <= rank <= NUM_RANKS
    case Clue(kind, value, target, _) => 0 <= target < players && ClueValueFits(kind, value)
    case Other(name) => name !in HANDLED_TYPES
    case _ => true
  }

  /** The action types handle_action has a branch for; any other type is an `Other`. */
  const HANDLED_TYPES: set<string> := {"draw", "play", "discard", "clue", "turn", "strike"}

  predicate AllFit(players: nat, actions: seq<Action>) {
    forall k :: 0 <= k < |actions| ==> Fits(players, actions[k])
  }

  /** The branches that end by copying the action into last_action and reading
      current_turn: everything before that read has already happened. */
  function AfterTurnRead(s: State): (r: StepResult)
    ensures r.state == s
    ensures r.outcome == Applied <==> s.currentTurn.Some?
    ensures r.outcome.Raised? ==> r.outcome.fault == CurrentTurnUnset
  {
    StepResult(s, if s.currentTurn.None? then Raised(CurrentTurnUnset) else Applied)
  }

  /** Applying one action to a table's state (handle_action). */
  function Step(s: State, a: Action): (r: StepResult)
    requires ValidState(s) && Fits(|s.hands|, a)
    ensures ValidState(r.state)
    ensures r.state.players == s.players && r.state.ourIndex == s.ourIndex
  {
    match a
    case Draw(who, order, suit, rank) =>
      StepResult(s.(hands := s.hands[who := s.hands[who] + [NewCard(order, suit, rank)]],
                    numCardsDeck := s.numCardsDeck - 1), Applied)
    case Play(seat, order) =>
      var i := CardIndex(s.hands[seat], order);
      if i == -1 then StepResult(s, Raised(CardNotFound))
      else
        assert s.hands[seat][i] in s.hands[seat];
        var card := s.hands[seat][i].(handIndex := Some(i));
        var k := PyIndex(card.suit, NUM_SUITS);
        AfterTurnRead(s.(hands := s.hands[seat := RemoveAt(s.hands[seat], i)],
                         playStacks := s.playStacks[k := s.playStacks[k] + [card]]))
    case Discard(seat, order, suit, rank, failed) =>
      var i := CardIndex(s.hands[seat], order);
      if i == -1 then StepResult(s, Raised(CardNotFound))
      else
        var card := s.hands[seat][i].(handIndex := Some(i));
        var k := PyIndex(suit, NUM_SUITS);
        var pile := s.discardPile[k];
        var filed := s.(hands := s.hands[seat := RemoveAt(s.hands[seat], i)],
                        discardPile := s.discardPile[k := pile[rank := pile[rank] + [card]]]);
        if failed then StepResult(filed, Applied)
        else AfterTurnRead(filed.(clueTokens := Min(filed.clueTokens + 1, MAX_CLUE_NUM)))
    case Clue(kind, value, target, touched) =>
      var paid := s.(clueTokens := s.clueTokens - 1);
      if paid.currentTurn.None? then StepResult(paid, Raised(CurrentTurnUnset))
      else StepResult(paid.(hands := paid.hands[target := ClueHand(paid.hands[target], kind, value, touched)]), Applied)
    case Turn(num, who) =>
      StepResult(s.(turn := num, currentTurn := Some(who)), Applied)
    case Strike =>
      AfterTurnRead(s.(lifeTokens := s.lifeTokens - 1))
    case Other(_) =>
      StepResult(s, Applied)
  }

  function Min(a: int, b: int): int {
    if a < b then a else b
  }

  /** Applying a list of actions in order (gameActionList). The first action that
      raises ends the list: the exception leaves the loop, and the actions after it
      are never applied. */
  function Replay(s: State, actions: seq<Action>): (r: StepResult)
    requires ValidState(s) && AllFit(|s.hands|, actions)
    ensures ValidState(r.state)
    ensures r.state.players == s.players && r.state.ourIndex == s.ourIndex
    decreases |actions|
  {
    if actions == [] then StepResult(s, Applied)
    else
      var first := Step(s, actions[0]);
      if first.outcome.Raised? then first else Replay(first.state, actions[1..])
  }

  /** Replaying one more action after a list that completed is one more single step. */
  lemma {:induction false} ReplayAppend(s: State, actions: seq<Action>, a: Action)
    requires ValidState(s) && AllFit(|s.hands|, actions) && Fits(|s.hands|, a)
    requires Replay(s, actions).outcome == Applied
    ensures AllFit(|s.hands|, actions + [a])
    ensures Replay(s, actions + [a]) == Step(Replay(s, actions).state, a)
    decreases |actions|
  {
    if actions != [] {
      var first := Step(s, actions[0]);
      assert first.outcome == Applied && Replay(s, actions) == Replay(first.state, actions[1..]);
      assert |first.state.hands| == |s.hands|;
      assert AllFit(|first.state.hands|, actions[1..]);
      var longer := actions + [a];
      assert longer[0] == actions[0] && longer[1..] == actions[1..] + [a];
      ReplayAppend(first.state, actions[1..], a);
    }
  }

  /** Once an action in the list raises, nothing after it is applied. */
  lemma {:induction false} ReplayStops(s: State, actions: seq<Action>, rest: seq<Action>)
    requires ValidState(s) && AllFit(|s.hands|, actions + rest)
    requires AllFit(|s.hands|, actions) && Replay(s, actions).outcome.Raised?
    ensures Replay(s, actions + rest) == Replay(s, actions)
    decreases |actions|
  {
    assert actions != [];
    var first := Step(s, actions[0]);
    assert (actions + rest)[0] == actions[0];
    if !first.outcome.Raised? {
      assert (actions + rest)[1..] == actions[1..] + rest;
      ReplayStops(first.state, actions[1..], rest);
    }
  }

  /** Replaying a list that ends without an exception, then a second list, is the
      same as replaying the two lists joined. */
  lemma {:induction false} ReplayConcat(s: State, xs: seq<Action>, ys: seq<Action>)
    requires ValidState(s) && AllFit(|s.hands|, xs + ys)
    requires AllFit(|s.hands|, xs) && Replay(s, xs).outcome == Applied
    ensures AllFit(|Replay(s, xs).state.hands|, ys)
    ensures Replay(s, xs + ys) == Replay(Replay(s, xs).state, ys)
    decreases |xs|
  {
    assert forall k :: 0 <= k < |ys| ==> ys[k] == (xs + ys)[|xs| + k];
    if xs == [] {
      assert xs + ys == ys;
    } else {
      var first := Step(s, xs[0]);
      assert (xs + ys)[0] == xs[0];
      assert (xs + ys)[1..] == xs[1..] + ys;
      ReplayConcat(first.state, xs[1..], ys);
    }
  }

  /** A "turn" action sets the turn number and current player and nothing else. */
  lemma StepTurn(s: State, num: int, who: int)
    requires ValidState(s)
    ensures Step(s, Turn(num, who)) == StepResult(s.(turn := num, currentTurn := Some(who)), Applied)
  {
  }

  /** An action type without a branch leaves the state as it was. */
  lemma StepOther(s: State, name: string)
    requires ValidState(s) && name !in HANDLED_TYPES
    ensures Step(s, Other(name)) == StepResult(s, Applied)
  {
  }

  /** A draw puts one fresh card at the back of the drawer's hand, leaves every other
      hand alone, takes one card from the deck and changes nothing else. */
  lemma StepDraw(s: State, who: int, order: int, suit: int, rank: int)
    requires ValidState(s) && Fits(|s.hands|, Draw(who, order, suit, rank))
    ensures Step(s, Draw(who, order, suit, rank)) ==
      StepResult(s.(hands := s.hands[who := s.hands[who] + [NewCard(order, suit, rank)]],
                    numCardsDeck := s.numCardsDeck - 1), Applied)
    ensures var r := Step(s, Draw(who, order, suit, rank)).state;
      && |r.hands| == |s.hands|
      && (forall w :: 0 <= w < |s.hands| && w != who ==> r.hands[w] == s.hands[w])
  {
  }

  /** A play or discard whose order is not in the seat's hand raises before it changes anything. */
  lemma StepMissingCard(s: State, a: Action)
    requires ValidState(s) && Fits(|s.hands|, a) && (a.Play? || a.Discard?)
    requires CardIndex(s.hands[a.seat], a.order) == -1
    ensures Step(s, a) == StepResult(s, Raised(CardNotFound))
  {
  }

  /** A play of a card in the seat's hand takes it out of that hand, keeping the other
      cards in order, and puts it on top of the play stack of the suit it was drawn with. */
  lemma StepPlayFound(s: State, seat: int, order: int)
    requires ValidState(s) && Fits(|s.hands|, Play(seat, order))
    requires CardIndex(s.hands[seat], order) != -1
    ensures var i := CardIndex(s.hands[seat], order);
      var card := s.hands[seat][i];
      assert card in s.hands[seat];
      var k := PyIndex(card.suit, NUM_SUITS);
      var res := Step(s, Play(seat, order));
      var r := res.state;
      && res.outcome == (if s.currentTurn.None? then Raised(CurrentTurnUnset) else Applied)
      && r.hands == s.hands[seat := RemoveAt(s.hands[seat], i)]
      && r.playStacks == s.playStacks[k := s.playStacks[k] + [card.(handIndex := Some(i))]]
      && r.discardPile == s.discardPile && r.clueTokens == s.clueTokens
      && r.lifeTokens == s.lifeTokens && r.numCardsDeck == s.numCardsDeck
      && r.turn == s.turn && r.currentTurn == s.currentTurn
  {
  }

  /** A discard of a card in the seat's hand takes it out of that hand and files it under
      the suit and rank the event names; a discard that is not a misplay also returns a
      clue token, up to the maximum. */
  lemma StepDiscardFound(s: State, seat: int, order: int, suit: int, rank: int, failed: bool)
    requires ValidState(s) && Fits(|s.hands|, Discard(seat, order, suit, rank, failed))
    requires CardIndex(s.hands[seat], order) != -1
    ensures var i := CardIndex(s.hands[seat], order);
      var card := s.hands[seat][i];
      var k := PyIndex(suit, NUM_SUITS);
      var res := Step(s, Discard(seat, order, suit, rank, failed));
      var r := res.state;
      && res.outcome == (if !failed && s.currentTurn.None? then Raised(CurrentTurnUnset) else Applied)
      && r.hands == s.hands[seat := RemoveAt(s.hands[seat], i)]
      && r.discardPile[k][rank] == s.discardPile[k][rank] + [card.(handIndex := Some(i))]
      && (forall q :: q in r.discardPile[k] && q != rank ==> r.discardPile[k][q] == s.discardPile[k][q])
      && (forall j :: 0 <= j < NUM_SUITS && j != k ==> r.discardPile[j] == s.discardPile[j])
      && r.playStacks == s.playStacks
      && r.clueTokens == (if failed then s.clueTokens else Min(s.clueTokens + 1, MAX_CLUE_NUM))
      && r.lifeTokens == s.lifeTokens && r.numCardsDeck == s.numCardsDeck
      && r.turn == s.turn && r.currentTurn == s.currentTurn
  {
  }

  /** A strike costs one life, with no floor, and changes nothing else; before any turn
      has been seen it then raises on the current_turn read. */
  lemma StepStrike(s: State)
    requires ValidState(s)
    ensures Step(s, Strike) == StepResult(s.(lifeTokens := s.lifeTokens - 1),
                                          if s.currentTurn.None? then Raised(CurrentTurnUnset) else Applied)
  {
  }

  /** A clue costs exactly one token, with no floor. Once a turn has been seen, it updates
      the knowledge of every card of the clued hand and of no other hand; nothing else
      changes. */
  lemma StepClue(s: State, kind: ClueKind, value: int, target: int, touched: seq<int>)
    requires ValidState(s) && Fits(|s.hands|, Clue(kind, value, target, touched))
    ensures var r := Step(s, Clue(kind, value, target, touched));
      && r.state.clueTokens == s.clueTokens - 1
      && (s.currentTurn.Some? ==>
            r.outcome == Applied &&
            r.state.hands == s.hands[target := ClueHand(s.hands[target], kind, value, touched)])
      && (s.currentTurn.None? ==> r.outcome == Raised(CurrentTurnUnset) && r.state.hands == s.hands)
    ensures Step(s, Clue(kind, value, target, touched)).state ==
      s.(clueTokens := s.clueTokens - 1,
         hands := if s.currentTurn.Some? then s.hands[target := ClueHand(s.hands[target], kind, value, touched)] else s.hands)
  {
  }

  /** Token arithmetic of every action: only a non-misplay discard of a card found in the
      hand refunds a clue token (capped, and before the current_turn read that may raise), only a clue spends one, and only a strike costs a life. */
  lemma StepTokens(s: State, a: Action)
    requires ValidState(s) && Fits(|s.hands|, a)
    ensures var r := Step(s, a).state;
      && r.lifeTokens == (if a.Strike? then s.lifeTokens - 1 else s.lifeTokens)
      && r.clueTokens == (
        if a.Clue? then s.clueTokens - 1
        else if a.Discard? && !a.failed && CardIndex(s.hands[a.seat], a.order) != -1
        then Min(s.clueTokens + 1, MAX_CLUE_NUM)
        else s.clueTokens)
  {
  }

  /** No list of actions lifts the clue tokens above the maximum. */
  lemma {:induction false} ReplayKeepsClueCap(s: State, actions: seq<Action>)
    requires ValidState(s) && AllFit(|s.hands|, actions)
    requires s.clueTokens <= MAX_CLUE_NUM
    ensures Replay(s, actions).state.clueTokens <= MAX_CLUE_NUM
    decreases |actions|
  {
    if actions != [] {
      StepTokens(s, actions[0]);
      var first := Step(s, actions[0]);
      if !first.outcome.Raised? {
        ReplayKeepsClueCap(first.state, actions[1..]);
      }
    }
  }
}
