/** The state record's list attributes as the Python class declares them: class
    attributes, one list object shared by every record, which "init" appends to. */
module SharedLists {
  import opened Constants
  import opened GameStateModel

  /** The three lists every record shares as written. */
  datatype ClassLists = ClassLists(hands: seq<seq<Card>>, playStacks: seq<seq<Card>>, discardPile: seq<Pile>)

  /** "init" as written: it appends the new table's hands, stacks and dictionaries to
      the shared lists instead of to lists of its own. */
  function InitAsWritten(shared: ClassLists, names: seq<string>): (r: ClassLists)
    ensures |r.hands| == |shared.hands| + |names|
    ensures |r.playStacks| == |shared.playStacks| + NUM_SUITS
    ensures r.hands[..|shared.hands|] == shared.hands
    ensures r.playStacks[..|shared.playStacks|] == shared.playStacks
    ensures |r.discardPile| == |shared.discardPile| + NUM_SUITS
    ensures r.discardPile[..|shared.discardPile|] == shared.discardPile
    ensures forall w :: |shared.hands| <= w < |r.hands| ==> r.hands[w] == []
    ensures forall k :: |shared.playStacks| <= k < |r.playStacks| ==> r.playStacks[k] == []
    ensures forall k :: |shared.discardPile| <= k < |r.discardPile| ==> r.discardPile[k] == EmptyPile()
  {
    ClassLists(
      shared.hands + seq(|names|, _ => []),
      shared.playStacks + seq(NUM_SUITS, _ => []),
      shared.discardPile + seq(NUM_SUITS, _ => EmptyPile()))
  }

  /** After a card is drawn into seat 0 at a first two-player table, a second two-player
      table sees four hands, and its seat 0 holds the first table's card; its play
      stacks are ten. */
  lemma SecondTableSeesFirstTablesCards(c: Card)
    ensures var first := InitAsWritten(ClassLists([], [], []), ["alice", "bot"]);
      var drawn := first.(hands := first.hands[0 := first.hands[0] + [c]]);
      var second := InitAsWritten(drawn, ["carol", "bot"]);
      |second.hands| == 4 && second.hands[0] == [c] && |second.playStacks| == 2 * NUM_SUITS
  {
  }
}
