/** Constants that must agree with the game server's own constants. */
module Constants {

  /** Action codes the server expects in an outbound "action" command. */
  const PLAY := 0
  const DISCARD := 1
  const COLOR_CLUE := 2
  const RANK_CLUE := 3

  /** The largest number of clue tokens, and the number a game starts with. */
  const MAX_CLUE_NUM := 8
  /** The number of cards in a deck of the default variant. */
  const MAX_DECK := 50
  /** The number of strikes ("life tokens") a game starts with. */
  const MAX_TOKENS := 3

  /** The default variant has five suits (colors) and five ranks. */
  const NUM_SUITS := 5
  const NUM_RANKS := 5

  /** Python's indexing of a list of length `n` by a possibly negative index:
      `-1` names the last element, `-n` the first. */
  function PyIndex(i: int, n: nat): (k: nat)
    requires -(n as int) <= i < n
    ensures k < n
    ensures 0 <= i ==> k == i
    ensures i < 0 ==> k == n + i
  {
    if i < 0 then n + i else i
  }
}
