/** The turn policy: what the client does when the server says it is our turn. */
module Policy {
  import opened Wrappers
  import opened Constants
  import opened GameStateModel
  import opened Hands

  /** An outbound action: its ACTION code, its target (a seat for a clue, a card order
      for a discard) and, for a clue, its value. */
  datatype Decision = Decision(kind: int, target: int, value: Option<int>)

  /** The seat after ours, back to seat 0 past the last seat. */
  function NextSeat(ourIndex: int, players: nat): (t: nat)
    requires 0 < players && -1 <= ourIndex < players
    ensures t < players
    ensures t == (ourIndex + 1) % players
  {
    var t := ourIndex + 1;
    if t > players - 1 then 0 else t
  }

  /** Our own hand as Python indexes it: an our_index of -1 (not seated) names the last hand. */
  function OwnSeat(s: State): nat
    requires 0 < |s.hands| && -1 <= s.ourIndex < |s.hands|
  {
    PyIndex(s.ourIndex, |s.hands|)
  }

  /** What the policy reads exists: the next seat's hand when a clue is available,
      our own hand otherwise. */
  predicate CanDecide(s: State) {
    && 0 < |s.players| == |s.hands|
    && -1 <= s.ourIndex < |s.players|
    && (s.clueTokens > 0 ==> s.hands[NextSeat(s.ourIndex, |s.players|)] != [])
    && (s.clueTokens <= 0 ==> s.hands[OwnSeat(s)] != [])
  }

  /** The reference policy (decide_action). With a clue token to spend, give the next
      seat a rank clue naming the rank of its newest card ("slot 1", the back of the
      hand); with none, discard our oldest card (the front of our hand). */
  function ChooseAction(s: State): (d: Decision)
    requires CanDecide(s)
    ensures s.clueTokens > 0 ==>
      && d.kind == RANK_CLUE
      && d.target == (s.ourIndex + 1) % |s.players|
      && 0 <= d.target < |s.hands| && s.hands[d.target] != []
      && d.value == Some(s.hands[d.target][|s.hands[d.target]| - 1].rank)
    ensures s.clueTokens <= 0 ==>
      && d.kind == DISCARD
      && d.value == None
      && d.target == s.hands[OwnSeat(s)][0].order
  {
    if s.clueTokens > 0 then
      var target := NextSeat(s.ourIndex, |s.players|);
      var hand := s.hands[target];
      Decision(RANK_CLUE, target, Some(hand[|hand| - 1].rank))
    else
      Decision(DISCARD, s.hands[OwnSeat(s)][0].order, None)
  }

  /** At a table of two or more, a seated client never clues its own hand. */
  lemma ClueTargetIsAnotherSeat(s: State)
    requires CanDecide(s) && s.clueTokens > 0
    requires 0 <= s.ourIndex && 1 < |s.players|
    ensures ChooseAction(s).target != s.ourIndex
  {
  }

  /** The card the policy discards is in our hand, so the discard the server echoes back
      finds it: the discard is never a missing-card fault. */
  lemma DiscardTargetIsInOwnHand(s: State)
    requires CanDecide(s) && s.clueTokens <= 0
    ensures CardIndex(s.hands[OwnSeat(s)], ChooseAction(s).target) != -1
  {
  }
}
