/**
 * The plain datatypes shared by the hand model and the game engine:
 * cards, the three-phase game state, events, input kinds and responses.
 * Player and card indices (Rust `usize`) are `nat`.
 */
module Cards {

  /** The two kinds of playing card. */
  datatype Card = Flower | Skull

  /**
   * The phase of play. `passed` and `flipped` hold one entry per player;
   * each `flipped[i]` lists the indices of player i's pile that the
   * challenger has turned over, in the order they were turned.
   */
  datatype State =
    | Playing(currentPlayer: nat)
    | Bidding(currentBidder: nat, highestBid: nat, highestBidder: nat, maxBid: nat, passed: seq<bool>)
    | Challenging(challenger: nat, target: nat, flipped: seq<seq<nat>>)

  /** What kind of input the game expects from the player it names. */
  datatype InputType = PlayCard | PlayCardOrStartBid | StartBid | BidOrPass | FlipCard

  /** A notification, or a request for input from a player. */
  datatype Event =
    | Input(player: nat, input: InputType)
    | BidStarted
    | ChallengeStarted
    | ChallengerChoseSkull(challenger: nat, skullPlayer: nat)
    | PlayerOut(player: nat)
    | ChallengeWon(player: nat)
    | ChallengeWonGameWon(player: nat)

  /** The action a player supplies: `Flip(p, c)` turns over card c of player p's pile. */
  datatype Response = PlayCard(card: Card) | Bid(amount: nat) | Pass | Flip(player: nat, index: nat)
}
