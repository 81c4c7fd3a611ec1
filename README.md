# Hanabi Live bot: game-state core in Dafny

This project models the game side of the Hanabi Live reference bot. The bot keeps one
state record per table it plays at. It applies the server's game actions to that record
and tracks, for every card in every hand, which (color, rank) identities the card can
still have given the clues its hand received. When the server says it is the bot's
turn, it chooses a move with a fixed policy.

Modules, one per part of the program:

- `Constants` (constants.py): action codes, `MAX_CLUE_NUM = 8`, `MAX_DECK = 50`,
  `MAX_TOKENS = 3`, five suits and ranks. It also holds `PyIndex`, Python's indexing of a
  list by a possibly negative index.
- `Knowledge`: the 25-entry knowledge vectors (entry `color*5 + rank`) and the clue masks.
- `GameStateModel` (game_state.py): the `Card` and `State` values and the mutable
  `GameState` class whose fields mirror the record's attributes. `Snapshot()` gives the
  class's current value as a `State`.
- `Hands`: finding a card by its order, removing it, and the per-card clue update.
- `Actions`: the game actions, the single-action step `Step` (handle_action) and the list
  replay `Replay` (gameActionList), with their properties.
- `Conservation`: the card count over deck, hands, play stacks and discard piles.
- `Policy`: the turn policy (decide_action) as a pure function returning an action
  descriptor.
- `Client`: the `HanabiClient` class. Its `games` map goes from table id to `GameState`.
  Its methods are the imperative handlers: the init loops, the card scan, the in-place
  clue loop and the action dispatch. Each is proved against `Step`/`Replay`/`InitialState`.
- `SharedLists`: the list attributes as the code actually shares them (see Findings).

Exceptions are modelled as outcomes, `Outcome.Raised(fault)`. The client's message loop
catches every exception a handler raises (hanabi_live_bot/hanabi_client.py:76-81). So an
exception ends the one action, and inside a `gameActionList` it also ends the rest of the
list. The model has three faults:

- `CardNotFound`: a play or discard whose order is not in the hand. `remove_card_from_hand`
  returns a bare `None`, and unpacking it raises a `TypeError`. The state is left unchanged,
  and a discard also gets no clue refund.
- `CurrentTurnUnset`: `current_turn` is not an attribute of the record until the first
  `turn` action sets it. Play, discard (non-misplay), clue and strike read it when they copy
  the action into `last_action`. Before any `turn`, that read raises after the branch's
  earlier updates have happened. A clue therefore costs its token but updates no knowledge.
  The model keeps `currentTurn` as an `Option`, `None` at first.
- `NoSuchTable`: a table id missing from `games`.

Where the code departs from the game's rules or from its own comments, the model follows the code:

- Clue tokens and life tokens have no lower clamp. Only the discard refund is capped, at 8.
- A knowledge vector can become all false: `Hands.ContradictoryCluesEmptyKnowledge`. The
  code does not flag it.
- A misplay (a discard with `failed`) moves the card but refunds no token.
- A played card goes on the stack of the suit it was drawn with. A suit of -1 ("unknown")
  lands on the last stack, as Python indexing does.

## Model

| member | source | states |
|---|---|---|
| `Knowledge.ClueMask` | hanabi_live_bot/hanabi_client.py:312-317 | entry `Cell(color, rank)` of the 25-entry mask is set exactly when the clue names that identity: `color == value` for a color clue, `rank == value - 1` for a rank clue |
| `Knowledge.ComplementMask` | hanabi_live_bot/hanabi_client.py:321-326 | the untouched-card mask is set exactly where the clue does NOT name the identity |
| `Knowledge.Meet` | hanabi_live_bot/hanabi_client.py:318 | the knowledge update is entry-wise: the result has the vector's length and each entry is the AND of the two entries at that position (the same comprehension at line 327) |
| `Knowledge.MeetShrinksAndSettles` | hanabi_live_bot/hanabi_client.py:318 | ANDing with a mask never turns an entry from 0 to 1, and ANDing twice with the same mask equals ANDing once |
| `GameStateModel.NewCard` | hanabi_live_bot/hanabi_client.py:256-262 | a drawn card keeps its order, suit and rank, has all 25 knowledge entries set, and no clue flags or hand index |
| `GameStateModel.GameState.constructor` | game_state.py:8-19 | a new record has 8 clue tokens, 50 cards in the deck, 3 life tokens, empty players, hands, play stacks and discard pile, `our_index` and `turn` at -1, and no current turn |
| `GameStateModel.IndexOfName` | hanabi_live_bot/hanabi_client.py:200-205 | our seat is -1 exactly when the name is absent; otherwise it holds the name and no earlier seat does |
| `GameStateModel.InitialState` | hanabi_live_bot/hanabi_client.py:195-223 | after init: the players are the given names, our index is the first seat with our name, there is one empty hand per player, 5 empty play stacks and 5 discard dictionaries with empty lists for ranks 1..5, and the record's defaults are kept |
| `Hands.CardIndex` | hanabi_live_bot/hanabi_client.py:415-421 | the result is -1 exactly when no card has the order; otherwise the card there has the order and no later card does (the last match, since the scan never stops) |
| `Hands.RemoveAt` | hanabi_live_bot/hanabi_client.py:432 | deleting position i keeps the cards before it and shifts those after it down by one; the removed card plus the rest is the same multiset as before |
| `Hands.ClueCard` | hanabi_live_bot/hanabi_client.py:304-327 | a touched card records the clue value in its flags and keeps only the identities the clue names; an untouched card loses exactly those identities; order, suit and rank are kept, and no entry goes from 0 to 1 |
| `Hands.ClueHand` | hanabi_live_bot/hanabi_client.py:302-327 | the clued hand keeps its length and order, and each position holds that card's clue update |
| `Hands.ClueHandIdempotent` | hanabi_live_bot/hanabi_client.py:304-327 | giving the same clue to a hand twice leaves it as giving it once |
| `Hands.ContradictoryCluesEmptyKnowledge` | hanabi_live_bot/hanabi_client.py:313-318 | a card touched by rank clues 1 and then 2 is left with no possible identity, and the update is not refused |
| `Actions.AfterTurnRead` | hanabi_live_bot/hanabi_client.py:276-277 | copying the action into `last_action` leaves the state as it is and raises `CurrentTurnUnset` exactly when `current_turn` was never set (the same read at lines 295, 301 and 335) |
| `Actions.Step` | hanabi_live_bot/hanabi_client.py:245-335 | applying any action keeps the state's shape: one hand per player, 5 stacks, 5 rank-keyed discard dictionaries, well-formed cards; players and our index unchanged |
| `Actions.Replay` | hanabi_live_bot/hanabi_client.py:239-243 | replaying a list keeps the state's shape and leaves players and our index unchanged |
| `Actions.ReplayAppend` | hanabi_live_bot/hanabi_client.py:239-243 | when a list completes, replaying it plus one more action equals one more single step from its result: replay is a left fold of the single-action step |
| `Actions.ReplayStops` | hanabi_live_bot/hanabi_client.py:239-243 | once an action of the list raises, the actions after it change nothing |
| `Actions.ReplayConcat` | hanabi_live_bot/hanabi_client.py:239-243 | replaying two lists joined equals replaying the second from the result of the first, when the first completes |
| `Actions.StepTurn` | hanabi_live_bot/hanabi_client.py:329-331 | a turn action sets only the turn number and the current player |
| `Actions.StepOther` | hanabi_live_bot/hanabi_client.py:253-335 | an action whose type is none of the six handled ones (`HANDLED_TYPES`) changes nothing and raises nothing |
| `Actions.StepDraw` | hanabi_live_bot/hanabi_client.py:253-264 | a draw's result is exactly the old state with one fresh card appended at the back of the drawer's hand and one card fewer in the deck, and it raises nothing: other hands, stacks, piles, tokens, turn and current turn are unchanged |
| `Actions.StepMissingCard` | hanabi_live_bot/hanabi_client.py:267-282 | a play or discard whose order is not in the seat's hand raises and changes nothing |
| `Actions.StepPlayFound` | hanabi_live_bot/hanabi_client.py:267-277 | a play of a card in the hand removes it from that position and appends it to the play stack of the suit it was drawn with; discard pile, tokens, deck, turn and current turn unchanged; it raises `CurrentTurnUnset` exactly when no turn has been seen yet |
| `Actions.StepDiscardFound` | hanabi_live_bot/hanabi_client.py:279-295 | a discard of a card in the hand removes it and appends it to the pile of the event's suit and rank, other piles unchanged; a non-misplay discard refunds a clue token capped at 8, and a misplay refunds none; stacks, lives, deck, turn and current turn unchanged; it raises `CurrentTurnUnset` exactly when it is not a misplay and no turn has been seen yet |
| `Actions.StepClue` | hanabi_live_bot/hanabi_client.py:297-327 | a clue's new state is exactly the old one with one clue token fewer (no floor) and, once a turn has been seen, the target hand replaced by its clue update; stacks, piles, lives, deck, turn and current turn are unchanged; before any turn it raises `CurrentTurnUnset` with the hands unchanged |
| `Actions.StepStrike` | hanabi_live_bot/hanabi_client.py:332-335 | a strike costs exactly one life with no floor and changes nothing else; it raises `CurrentTurnUnset` exactly when no turn has been seen yet |
| `Actions.StepTokens` | hanabi_live_bot/hanabi_client.py:291-335 | clue tokens rise by one, capped at 8, only on a non-misplay discard of a card found in the hand (also when the `current_turn` read after the refund raises), and fall by one only on a clue; life tokens fall by one only on a strike (line 333) |
| `Actions.ReplayKeepsClueCap` | hanabi_live_bot/hanabi_client.py:291-293 | no list of actions raises clue tokens above 8 |
| `Conservation.InitialTotal` | hanabi_live_bot/hanabi_client.py:207-223 | a freshly initialised table holds exactly 50 cards: all in the deck, none in hands, stacks or piles |
| `Conservation.StepConserves` | hanabi_live_bot/hanabi_client.py:253-288 | deck count plus cards in hands, play stacks and discard piles is unchanged by every action |
| `Conservation.ReplayConserves` | hanabi_live_bot/hanabi_client.py:239-243 | the card total is unchanged by every list of actions |
| `Conservation.DeckSizeIsInvariant` | hanabi_live_bot/hanabi_client.py:189-288 | from a freshly initialised table, the card total stays 50 whatever actions arrive |
| `Policy.NextSeat` | hanabi_live_bot/hanabi_client.py:372-374 | the seat after ours wraps to 0 past the last seat: it equals (our index + 1) mod players |
| `Policy.ChooseAction` | hanabi_live_bot/hanabi_client.py:359-396 | with a clue token: a rank clue to seat (our index + 1) mod players, valued at the rank of that hand's newest card; without: a discard of our oldest card's order |
| `Policy.ClueTargetIsAnotherSeat` | hanabi_live_bot/hanabi_client.py:371-374 | at a table of two or more, a seated bot never clues its own hand |
| `Policy.DiscardTargetIsInOwnHand` | hanabi_live_bot/hanabi_client.py:388-396 | the order chosen for a discard is found in our hand, so that discard is never a missing-card fault |
| `Client.HanabiClient.constructor` | hanabi_live_bot/hanabi_client.py:14-20 | a new client holds no game state |
| `Client.HanabiClient.FindOurIndex` | hanabi_live_bot/hanabi_client.py:200-205 | the loop with its break returns the first seat holding our name, or -1 |
| `Client.HanabiClient.NewGameState` | hanabi_live_bot/hanabi_client.py:195-223 | builds a fresh record whose value is the initial state for the names |
| `Client.HanabiClient.AddEmptyHands` | hanabi_live_bot/hanabi_client.py:207-209 | the loop appends exactly one empty hand per player after the hands already there |
| `Client.HanabiClient.AddEmptyPlayStacks` | hanabi_live_bot/hanabi_client.py:219-220 | the loop appends exactly five empty play stacks after those already there |
| `Client.HanabiClient.AddEmptyDiscardPiles` | hanabi_live_bot/hanabi_client.py:222-223 | the loop appends exactly five discard dictionaries, each with an empty list for ranks 1 to 5 |
| `Client.HanabiClient.Init` | hanabi_live_bot/hanabi_client.py:189-223 | stores a fresh initial-state record under the table id, leaves other tables' records untouched, and keeps records unshared |
| `Client.HanabiClient.DatabaseId` | hanabi_live_bot/hanabi_client.py:344-353 | removes the table's record and nothing else; a missing table raises |
| `Client.HanabiClient.FindCardIndex` | hanabi_live_bot/hanabi_client.py:415-421 | the scan returns the last index whose card has the order, or -1 |
| `Client.HanabiClient.RemoveCardFromHand` | hanabi_live_bot/hanabi_client.py:424-433 | on a miss returns nothing and leaves the hands unchanged; otherwise returns the card and its index and deletes only that position of that hand |
| `Client.HanabiClient.UpdateKnowledge` | hanabi_live_bot/hanabi_client.py:302-327 | the in-place clue loop leaves the target hand equal to its clue update and the other hands unchanged |
| `Client.HanabiClient.ApplyDraw` | hanabi_live_bot/hanabi_client.py:253-265 | the draw branch changes the record exactly as the single step specifies |
| `Client.HanabiClient.ApplyPlay` | hanabi_live_bot/hanabi_client.py:267-277 | the play branch changes the record and reports the outcome exactly as the single step specifies |
| `Client.HanabiClient.ApplyDiscard` | hanabi_live_bot/hanabi_client.py:279-295 | the discard branch changes the record and reports the outcome exactly as the single step specifies |
| `Client.HanabiClient.ApplyClue` | hanabi_live_bot/hanabi_client.py:297-327 | the clue branch changes the record and reports the outcome exactly as the single step specifies |
| `Client.HanabiClient.HandleAction` | hanabi_live_bot/hanabi_client.py:245-335 | the table's record becomes the single step's result, and the other tables' records are unchanged; an unknown table raises |
| `Client.HanabiClient.GameAction` | hanabi_live_bot/hanabi_client.py:235-237 | a live action is the replay of a one-element list |
| `Client.HanabiClient.GameActionList` | hanabi_live_bot/hanabi_client.py:239-243 | the record becomes the replay of the list, stopping at the first action that raises; other tables unchanged |
| `Client.HanabiClient.DecideAction` | hanabi_live_bot/hanabi_client.py:359-361 | for a known table the move is the policy's choice on its record; an unknown table yields none |
| `SharedLists.InitAsWritten` | hanabi_live_bot/hanabi_client.py:207-223 | as written, init keeps every hand, play stack and discard dictionary already in the shared lists, and appends one empty hand per name, five empty play stacks and five discard dictionaries with an empty list per rank |
| `SharedLists.SecondTableSeesFirstTablesCards` | game_state.py:11-15 | with the shared lists, a second two-player table sees four hands, seat 0 holding a card drawn at the first table, and ten play stacks |

## Findings

| source | as written | input that shows it | evidently intended | confidence | as-written member | corrected member |
|---|---|---|---|---|---|---|
| game_state.py:11-15 | `players`, `hands`, `play_stacks` and `discard_pile` are class attributes. `init` appends to `hands`, `play_stacks` and `discard_pile` (hanabi_live_bot/hanabi_client.py:209, 220, 223), so every table shares the same lists | init of a 2-player table, a draw into seat 0, then init of a second 2-player table: the second table has 4 hands, its seat 0 holds the first table's card, and it has 10 play stacks | each table gets its own empty hands, stacks and piles ("Make a new game state") | high; not executed | `SharedLists.SecondTableSeesFirstTablesCards` | `Client.HanabiClient.NewGameState` |

The rest of the model uses the corrected, per-table record. `Client.HanabiClient.Init`
proves the record is fresh and that no two tables share one.

## Left out

- The WebSocket transport is not modelled: message splitting, JSON decoding, the socket
  callbacks and `send`. Decode faults (a payload missing a field) are not modelled either.
- The lobby and chat handlers are not modelled: `welcome`, `error`, `warning`, `chat`,
  `chat_join`, `chat_reply`, `table`, `table_list`, `table_gone`, `table_start`.
  `username` is a constructor parameter here instead of being set by `welcome`.
- The outbound `send` calls of init, databaseID and the policy are not modelled. The policy
  returns a `Decision` descriptor instead.
- `print` diagnostics are not modelled. Neither is the `last_action` copy: it is diagnostic
  only. What is modelled is its one effect on state, the read of `current_turn` that raises
  before the first turn.
- The unused `replaying_past_actions` flag is not modelled.
- The Python class-attribute sharing is modelled only in `SharedLists` (see Findings).
- Cards are values, not shared dictionaries. Setting `hand_index` after the append is
  modelled by appending the card with `handIndex` already set, which gives the same result.
- Knowledge entries and clue flags are booleans. The code uses the ints 0 and 1, and
  `and` on 0/1 behaves like boolean AND.
- A clue's type is `ColorClue` or `RankClue` (wire values 0 and 1). Other type values are
  not modelled.
- Actions.Step: requires each action's index fields to be in range (`Fits`): seats
  0..players-1, a drawn suit -5..4 (which covers the server's -1 for "unknown"), a discard's
  suit -5..4 and rank 1..5, a color clue's value 0..4 and a rank clue's value 1..5. The code's
  paths for values out of range are not modelled:
  - A seat out of range raises an IndexError at `state.hands[...]`. For a clue this comes
    after the token has been paid.
  - A drawn suit out of range raises nothing at the draw, which never indexes by suit. A
    later play of that card deletes it from the hand (hanabi_live_bot/hanabi_client.py:432)
    and only then raises an IndexError at `play_stacks[card['suit']]` (line 272). The card
    ends up in no hand, stack or pile, and the card total drops by one.
  - A discard rank outside 1..5 (or a suit out of range) likewise raises at line 285 after
    the delete at line 432, so that card is lost too.
  - A color value of -1..-5 or a rank value of 0..-4 raises nothing. It sets a clue flag
    counted from the end of the five-entry list (line 310). The mask at lines 315-316 then
    selects nothing, so a touched card's knowledge silently becomes all false, while the
    untouched cards keep theirs.
  - A clue value that is too large, or a color value below -5 or a rank value below -4,
    raises an IndexError at line 310 only when the clue touches some card. By then the token
    is paid and the cards before it in the hand have been updated.
  - Negative seats, which Python would index from the end, are not modelled either.
- Conservation.DeckSizeIsInvariant: holds for actions that satisfy `Fits`. Because `Fits`
  excludes out-of-range drawn suits and discard ranks, it does not cover the lost-card paths
  above, where the code's card total drops below 50.
- Policy.ChooseAction: requires the hand it reads to be non-empty and `our_index` to be
  -1 or a seat. An empty hand raises an IndexError in the code. With `our_index` at -1, the
  code's own indexing is followed: the clue goes to seat 0, and the discard reads the last
  hand.
- Concurrency: tables are processed one action at a time, in order.
