# Skull rules engine, modelled in Dafny

This project models the rules engine of the bluffing card game Skull
(3 to 6 players). Each player holds a hand of one skull and three
flowers. Players put cards face down on their own pile, bid for a number
of cards to turn over, and the highest bidder then challenges, turning
cards over until they reach the target or hit a skull.

The model covers the two files that make up the engine.

- `game/src/hand.rs`: a hand as a two-kind multiset, with membership,
  count, subset, subtraction, reading a hand from a list of cards, and
  discarding one card.
- `game/src/game.rs`: the game state machine. It keeps per-player arrays
  of scores, hands and piles, a phase (`Playing`, `Bidding`,
  `Challenging`) and a one-slot mailbox of pending events. Callers drive
  it with `what_next` and `respond`. The engine also has a consistency
  check for games built from raw parts.

The plain datatypes of `game/src/lib.rs` (`Card`, `State`, `Event`,
`InputType`, `Response`) are in `cards.dfy`.

## Layout

| file | module | contents |
|---|---|---|
| `wrappers.dfy` | `Wrappers` | `Option`, `Result` |
| `cards.dfy` | `Cards` | the datatypes of `lib.rs` |
| `hands.dfy` | `Hands` | `Hand` as a value, its operations, and lemmas over the multiset view `Contents` |
| `rules.dfy` | `Rules` | the game's data as a value (`Snapshot`), the read-only queries, and the legality of a response (`Accepts`) |
| `validation.dfy` | `Validation` | `assert_valid` as the predicate `Valid` |
| `steps.dfy` | `Steps` | what `what_next` and `respond` do, as functions on snapshots, and lemmas about them |
| `engine.dfy` | `Engine` | class `Game`, over arrays updated in place, proved to follow `Steps` |
| `scenarios.dfy` | `Scenarios` | short games played through `Game` |

## How the code is modelled

- `Hand` is a `Copy` value in Rust, so here it is a datatype. Its
  abstract view is `Contents(h)`, a multiset of cards. `discard_one`
  becomes the method `DiscardOne`, which returns the new hand; the game
  writes that hand back into its `hands` array.
- `Game<N>` becomes the class `Engine.Game`. `scores`, `hands` and
  `played` are arrays, `state` and `pending` are fields. `View()` reads
  the whole game as a `Snapshot`. Each method is proved to leave
  `View()` equal to a function of the old `View()`: `Steps.AfterNext`
  for `WhatNext`, `Steps.Step` for `Respond`.
- Every `assert!`, `unwrap`, out-of-range index, `expect`, `todo!` and
  `unreachable!` that the engine can hit is a precondition. For
  `respond`, all of them together are the predicate `Rules.Accepts`; for
  `what_next`, the predicate `Steps.CanAsk`.
- The validator's panics are its verdict. `Validation.Valid(s)` holds
  exactly when every check passes and none of the checks' own steps would
  panic. For example, `remaining_player_count() - 2` on `usize` makes
  fewer than two players left in a bidding round invalid.
- The random draw of `discard_one` is the parameter `choice`.
- `respond` is one method in Rust. Here each implemented branch is its
  own method (`PlayCardTurn`, `OpenBid`, `TurnOver`), and `Respond`
  dispatches to them. Likewise the bidder search of `increment_player`
  is the method `NextUnpassed`.

The engine is unfinished. The model follows the code, not the game's
rules, wherever the two differ:

- The flip branch compares the flip count taken *before* the flip is
  recorded with the target (`game/src/game.rs:102`, `:217`). The flip
  that reaches the target declares nothing (`Steps.WinDeclaredOneFlipLate`).
  A challenge for every card on the table is never won by a flip
  (`Steps.FullTargetNeverScores`), and a bid from the player to play only
  ever starts that kind of challenge. The rules say the challenge is won
  when the count after the flip equals the target.
- A flip index is checked against the size of that player's hand
  (`:196`). The pile index that follows panics if the index is past the
  pile, so `Accepts` needs both bounds. The rules also forbid the
  challenger flipping their own cards by hand. The code does not check
  this, and neither does the model.
- Playing a card does not check that the card is still in the hand
  rather than on the pile (`:114`; `Steps.PlayCardAlreadyPlayed`).
- In `Playing`, the turn goes to the next seat even when that player is
  out (`:253`; `Steps.PlayCardMayPassToOutPlayer`).
- Handing out a challenge-ending event does not clear the piles, unlike
  the rules (`Steps.DrainOnce`).
- The validator checks the challenger's own flips as positions
  `4 - target` up to the size of their hand (`:459-471`). This is
  modelled literally in `Validation.OwnFlipsValid`.
- `respond` panics on a bad response. The crate declares a
  `ResponseError` type for these cases (`game/src/lib.rs:215-241`): a
  pending event, a wrong kind of input, a card not in hand, a bid too low
  or too high, a bad index, a card already flipped, and a flip of the
  challenger's own cards. `respond` never returns one, so the model has
  no error results either.
- `respond` does not refuse a response while an event is pending, though
  callers are required to handle every pending event first
  (`game/src/lib.rs:148-150`). `Accepts` does not look at the pending
  event either. `Scenarios.SkullCostsACard` flips a card while
  `ChallengeStarted` is still pending, which the code allows.

## Model

| member | source | states |
|---|---|---|
| `Hands.New` | game/src/hand.rs:16-21 | the starting hand holds exactly one skull and three flowers |
| `Hands.NewIsFull` | game/src/hand.rs:16-21 | the starting hand has both kinds, has count 4, is not empty, and covers every valid hand |
| `Hands.EmptyHand` | game/src/hand.rs:8-12 | the derived default hand holds no cards |
| `Hands.HasSkull` | game/src/hand.rs:23-25 | true exactly when the hand holds a skull |
| `Hands.Has` | game/src/hand.rs:27-33 | true exactly when the card is among the hand's cards |
| `Hands.Count` | game/src/hand.rs:35-37 | the number of cards in the hand |
| `Hands.Empty` | game/src/hand.rs:39-41 | true exactly when the hand holds no cards, that is, when it is the default hand |
| `Hands.AsVec` | game/src/hand.rs:43-49 | the list holds exactly the hand's cards, its length is the count, and only position 0 can be (and then is) the skull |
| `Hands.IsSupersetOf` | game/src/hand.rs:51-56 | true exactly when the other hand's cards are contained in this one's |
| `Hands.ContentsIncluded` | game/src/hand.rs:51-56 | containment holds exactly when the skull is allowed and there are at least as many flowers |
| `Hands.SupersetPreorder` | game/src/hand.rs:51-56 | the superset test is reflexive and transitive |
| `Hands.Discarded` | game/src/hand.rs:58-76 | a non-empty hand loses exactly one card and keeps the rest; with one kind held, that kind goes; with both, the draw decides |
| `Hands.DiscardOne` | game/src/hand.rs:58-76 | the in-place discard gives the hand `Discarded` describes |
| `Hands.Valid` | game/src/hand.rs:78-80 | a hand passes the check exactly when the starting hand covers it |
| `Hands.AddCard` | game/src/hand.rs:98-112 | one pass of the reading loop: a second skull fails with `MultipleSkulls`, a fourth flower with `TooManyFlowers`, any other card is added |
| `Hands.ReadPrefix` | game/src/hand.rs:92-115 | reading the first i cards either gives a valid hand of i cards or fails with a skull or flower error |
| `Hands.FromCards` | game/src/hand.rs:92-115 | a successful read gives a valid hand with one card per list entry |
| `Hands.FromCardsContents` | game/src/hand.rs:92-115 | reading succeeds exactly when the list has at most one skull and three flowers, and the hand then holds exactly the listed cards |
| `Hands.FirstError` | game/src/hand.rs:92-115 | the error reported is the one for the first card that breaks the limit: the second skull or the fourth flower |
| `Hands.ErrorSticks` | game/src/hand.rs:98-113 | once the scan has failed, reading further cards reports the same error |
| `Hands.TryFrom` | game/src/hand.rs:92-115 | the scanning loop with early error returns computes what `FromCards` specifies |
| `Hands.AsVecRoundTrip` | game/src/hand.rs:43-49 | reading back the list of a valid hand gives that hand |
| `Hands.Sub` | game/src/hand.rs:121-139 | fails with `RhsNotSubset(lhs, rhs)` exactly when the right side is not contained in the left; otherwise gives the multiset difference, and counts subtract |
| `Hands.SubIsSubset` | game/src/hand.rs:121-139 | a difference is covered by the left side, and it is empty exactly when both sides are equal |
| `Hands.SubCards` | game/src/hand.rs:145-148 | read errors pass through; succeeds exactly when the list is a valid hand contained in the left side, and then gives the difference with counts adding up |
| `Rules.Shaped` | game/src/game.rs:5-11 | the fixed sizes of the game's arrays: 3 to 6 players, one score, hand and pile per player, piles and flip lists of at most 4 entries, one passed flag per player |
| `Rules.PlayerCount` | game/src/game.rs:233-235 | the number of players is the number of hands |
| `Rules.Initial` | game/src/game.rs:17-28 | the game `new` builds: zero scores, full hands, empty piles, player 0 to play, nothing pending |
| `Rules.Player` | game/src/game.rs:241-247 | the awaited player is the current player, the current bidder or the challenger, by phase |
| `Rules.CardsPlayedCount` | game/src/game.rs:281-283 | the total number of cards on all piles |
| `Rules.IsPlayerOut` | game/src/game.rs:274-279 | a player is out exactly when their hand holds no cards |
| `Rules.Remaining` | game/src/game.rs:237-239 | the players left plus the empty hands make up all players; none are left exactly when every hand is empty |
| `Rules.RemainingPlayerCount` | game/src/game.rs:237-239 | no more players are left than play |
| `Rules.SumLengths` | game/src/game.rs:281-283 | the total is zero exactly when every list is empty |
| `Rules.SumLengthsUpdate` | game/src/game.rs:281-283 | replacing one list changes the total by the change in that list's length |
| `Rules.CardsFlippedCount` | game/src/game.rs:285-291 | a count exists exactly while a challenge is on |
| `Rules.ExpectedInput` | game/src/game.rs:70-93 | asks for a bid or pass exactly in bidding and a flip exactly in a challenge; in play, a card may be played exactly when the pile is shorter than the hand, and a bid started exactly when it is not or every player could have one card down |
| `Rules.HasUniqueElements` | game/src/game.rs:585-592 | true exactly when no two positions hold the same element |
| `Rules.CheckUnique` | game/src/game.rs:585-592 | the scan that records seen elements in a set answers as `HasUniqueElements` |
| `Rules.UniqueBelowBound` | game/src/game.rs:437-450 | distinct indices all below m are at most m in number |
| `Rules.FlipListHasRoom` | game/src/game.rs:196-216 | a flip the challenger may still make leaves valid flip lists, and the list being pushed onto is shorter than its pile, so the push cannot overflow |
| `Rules.SkullsFlipped` | game/src/game.rs:521-536 | skulls flipped are at most the cards flipped, and none exactly when every flipped card is a flower |
| `Rules.FlippedSkulls` | game/src/game.rs:521-536 | at most as many skulls as flips |
| `Rules.Dist` | game/src/game.rs:253-268 | steps around the table from one seat to another: fewer than the number of seats, and that many steps reach the seat |
| `Rules.DistNext` | game/src/game.rs:263-266 | one seat further round is one step further, short of a full turn |
| `Rules.FirstUnpassedUnique` | game/src/game.rs:263-266 | at most one seat is the first not-passed seat from a given start |
| `Rules.IsFirstUnpassed` | game/src/game.rs:265-268 | the seat where the bidder search stops: not passed, and every seat before it going round from the start has passed |
| `Rules.FlipsValid` | game/src/game.rs:435-452 | every flip list points within its pile, is no longer than it and has no repeats |
| `Rules.Accepts` | game/src/game.rs:97-231 | `respond` reaches the end of an implemented branch: a card held by the player to play on a pile with room; a bid of at most the cards down; a flip of a player in range, a card index below their hand's count and their pile's length, not yet flipped, with room in the flip list, a challenger with a card to lose on a skull and a score below 255 on a scoring flower |
| `Validation.NewIsValid` | game/src/game.rs:17-28 | the game `new` builds passes the validator, has no cards down, all players in, and asks player 0 for a card |
| `Validation.ChallengeWonKeepsValid` | game/src/game.rs:500-515 | a valid challenge that has reached its target, game not won, has `ChallengeWon(challenger)` pending, and giving the challenger the turn with nothing pending leaves a valid game |
| `Validation.ValidFlipsValid` | game/src/game.rs:435-452 | in a valid challenge every flip list lies within its pile, is no longer than it and has no repeats |
| `Validation.ValidBiddingHasBidder` | game/src/game.rs:404-409 | in a valid bidding round not every player has passed, which is what advancing the bidder needs |
| `Validation.ValidPilesWithinHands` | game/src/game.rs:303-316 | in a valid game each pile's cards are among its owner's cards, so no pile is longer than its hand |
| `Validation.RequestedInputAnswerable` | game/src/game.rs:73-88 | when a valid game asks for a card, a held card is accepted, and when it allows a bid, a bid of every card down is accepted |
| `Validation.Valid` | game/src/game.rs:296-518 | `assert_valid` passes: scores at most 2, valid hands, each pile a valid hand its owner's hand covers, enough cards down outside play, and the score, balance and phase checks below |
| `Validation.PileFitsHand` | game/src/game.rs:306-317 | the pile reads as a valid hand and the owner's hand is a superset of it |
| `Validation.ScoresValid` | game/src/game.rs:326-343 | exactly one player has 2 points, and is still in, when a game-won event is pending, and nobody otherwise |
| `Validation.PilesBalanced` | game/src/game.rs:345-360 | someone is still in, and the piles of the players still in differ in length by at most one |
| `Validation.StateValid` | game/src/game.rs:362-518 | the phase checks: the awaited players are seated and in, bids below the maximum, enough players left for the passes, and in a challenge the target, flip lists, own flips, skulls flipped and a reached target's pending event |
| `Validation.OwnFlipsValid` | game/src/game.rs:454-486 | the challenger's own flips are the positions from `4 - target` to their hand's count, or their whole pile when the target exceeds it, and a skull there has been declared as their own |
| `Validation.SelfSkullCorrectlyDeclared` | game/src/game.rs:539-552 | the pending event is `ChallengerChoseSkull` with the challenger as the skull's owner |
| `Steps.DrainOnce` | game/src/game.rs:53-68 | a pending event is handed out once and cleared; a second call, where it does not panic, changes nothing more; piles, hands and scores are untouched; a skull or a won challenge gives the turn to the skull's owner or the winner, and `BidStarted` or `ChallengeWonGameWon` leaves the phase alone |
| `Steps.AskIsIdempotent` | game/src/game.rs:70-93 | with nothing pending, nothing changes and the awaited player is asked for input |
| `Steps.CanAsk` | game/src/game.rs:52-80 | `what_next` does not panic: nothing pending that is an input request or `ChallengeStarted`, and a player to play that has a seat |
| `Steps.NextEvent` | game/src/game.rs:52-93 | the pending event if there is one, otherwise an input request to the awaited player for the kind of input `ExpectedInput` gives |
| `Steps.AfterNext` | game/src/game.rs:52-68 | the pending event is cleared, and a skull or a won challenge hands the turn to the player it names |
| `Steps.Step` | game/src/game.rs:97-231 | the game after an accepted response: a card pushed on the player's pile and the turn passed on; a first bid opening bidding or a challenge for every card down; a flip handled as `SkullFlipped` or `FlowerFlipped` |
| `Steps.SkullFlipped` | game/src/game.rs:207-214 | the challenger loses the card the draw picks and `ChallengerChoseSkull` names the skull's owner |
| `Steps.FlowerFlipped` | game/src/game.rs:215-226 | the flip is pushed onto that player's list, and when the count before it equals the target the challenger scores and the win or game win is pending |
| `Steps.PlayCardStep` | game/src/game.rs:113-123 | playing a card adds it on top of the player's own pile and one to the cards down, and passes the turn to the next seat; nothing else changes |
| `Steps.PlayCardMayPassToOutPlayer` | game/src/game.rs:253 | when the next seat is out, the game after a card is played fails the validator |
| `Steps.PlayCardAlreadyPlayed` | game/src/game.rs:114-121 | a card whose every copy is already down is still accepted, and the pile then no longer fits the hand |
| `Steps.BidStep` | game/src/game.rs:125-148 | a bid below the cards down opens bidding led by the bidder, with the next seat to bid and nobody passed; a bid of all of them starts a challenge on all of them with nothing flipped |
| `Steps.FlipFlowerStep` | game/src/game.rs:215-216 | a flower flip is recorded in that player's flip list, the lists stay valid, piles and hands do not change |
| `Steps.FlipFlowerCounts` | game/src/game.rs:215-216 | a flower flip adds one to the flip count and no skull |
| `Steps.FlipFlowerScore` | game/src/game.rs:215-225 | the challenger scores exactly when the count before the flip equals the target, and the event then says whether the game is won |
| `Steps.FlipSkullStep` | game/src/game.rs:207-214 | a skull costs the challenger exactly one card and reports whose skull it was; the flip is not recorded; the players left drop by one exactly when the challenger is now out |
| `Steps.RemainingUpdate` | game/src/game.rs:237-239 | replacing one hand changes the players left only by that hand's change |
| `Steps.SkullsFlippedUpdate` | game/src/game.rs:521-536 | replacing one flip list changes the skull count only by that list's change |
| `Steps.WinDeclaredOneFlipLate` | game/src/game.rs:215-225 | the flip that brings the count to the target declares nothing, and with nothing pending before, the game then fails the validator |
| `Steps.FullTargetNeverScores` | game/src/game.rs:215-225 | in a challenge on every card down, no allowed flip finds the count equal to the target, so no flip scores or declares a win |
| `Steps.StepKeepsShape` | game/src/game.rs:97-231 | every implemented branch of `respond` keeps the game's shape and valid flip lists |
| `Engine.Game.New` | game/src/game.rs:17-28 | builds fresh arrays holding the game `Initial(n)` |
| `Engine.Game.CreateFrom` | game/src/game.rs:554-576 | accepts exactly the parts the validator passes and holds them unchanged |
| `Engine.Game.WhatNext` | game/src/game.rs:49-95 | returns `NextEvent` of the old game and leaves `AfterNext` of it |
| `Engine.Game.IncrementPlayer` | game/src/game.rs:249-272 | in play, the next seat; in bidding, the first seat after the bidder, going round, that has not passed; nothing else changes |
| `Engine.Game.Respond` | game/src/game.rs:97-231 | leaves the game `Step` describes and keeps the class invariant |
| `Engine.Game.PlayCardTurn` | game/src/game.rs:113-123 | playing a card leaves the game `Step` gives for it and keeps the class invariant |
| `Engine.Game.OpenBid` | game/src/game.rs:125-148 | a first bid leaves the game `Step` gives for it and keeps the class invariant |
| `Engine.Game.TurnOver` | game/src/game.rs:190-227 | a flip leaves the game `Step` gives for it and keeps the class invariant |
| `Engine.Game.SkullTurned` | game/src/game.rs:207-214 | a skull turned over leaves the game `SkullFlipped` describes |
| `Engine.Game.FlowerTurned` | game/src/game.rs:215-226 | a flower turned over leaves the game `FlowerFlipped` describes, with the count taken before the flip |
| `Engine.NextUnpassed` | game/src/game.rs:265-268 | the bidder search stops at the first seat, going round from the start seat, whose player has not passed |
| `Scenarios.OpeningTurn` | game/src/game.rs:70-93 | a fresh game asks player 0 for a card twice alike, then player 1 after player 0 plays |
| `Scenarios.OpeningBid` | game/src/game.rs:125-138 | with one card each down, player 0 may play or bid; a bid of 2 opens bidding for player 1 |
| `Scenarios.MaxBidChallenges` | game/src/game.rs:139-146 | a bid of all three cards starts a challenge for three with nothing flipped |
| `Scenarios.SkullCostsACard` | game/src/game.rs:207-214 | turning over player 1's skull leaves the challenger three cards and gives player 1 the turn |
| `Scenarios.FullPileMustBid` | game/src/game.rs:75-88 | a player with all four cards down is asked to start a bid |

## Left out

- The random number generator. `rand::thread_rng` and
  `gen_range(0..=count)` are replaced by the parameter `choice`, so the
  model says nothing about how likely each discard is.
- The `todo!()` branches. These are the `ChallengeStarted` drain in
  `what_next` (`game/src/game.rs:55`), raising a bid (`:149-176`,
  including the overwrite of `max_bid` at `:172`), and passing
  (`:178-180`). The drain, like the `unreachable!` for a pending input
  request (`:64`), is excluded by `Steps.CanAsk`, a precondition of
  `NextEvent`, `AfterNext` and `Engine.Game.WhatNext`. The other two, like the final `panic!` arm
  (`:229`), make `Accepts` false. So the model has no own-card flipping
  at the start of a challenge, and no bidding round ever ends.
- `Engine.Game.IncrementPlayer`: its bidding branch is modelled and
  proved, but the modelled branches of `respond` never reach it.
- `Event::PlayerOut` is never produced by the engine, and the model
  does not produce it either.
- The getters `scores`, `hands`, `cards_played` and `state`
  (`game/src/game.rs:30-47`) are reads of the class's fields. `Default`
  is `new`.
- `Display` impls and the `println!` in `create_from`: these are output only.
- `ResponseError` in `lib.rs`: `game.rs` never uses it.
- The crate's tests and `src/main.rs` are not modelled.
- `Hands.Count`: returns an unbounded count. The `u8` sum
  would overflow only for a hand of 255 flowers and a skull, which no
  valid hand reaches.
- `Hands.DiscardOne`: the `debug_assert!` is modelled as a
  precondition, as in a debug build.
- `usize` arithmetic is unbounded here. All the sums involved are
  below 30.
- `Engine.Game.New`: does not itself promise validity. `Validation.NewIsValid`
  proves that `Initial(n)` passes the validator.
- The validator sorts the pile lengths of the players still in and
  compares the largest with the smallest. `Validation.PilesBalanced`
  states the same condition pairwise.
