/**
 * The consistency check a game assembled from raw parts must pass
 * (`assert_valid`). `Valid(s)` holds exactly when every check passes and
 * none of the checks' own steps would panic (an index out of range, a
 * `usize` subtraction below zero, an `expect` on an error); each such
 * step is written here as the condition that keeps it from panicking.
 */
module Validation {
  import opened Wrappers
  import opened Cards
  import opened Hands
  import opened Rules

  /** The cards a player has on the table form a hand that their own hand covers. */
  predicate PileFitsHand(h: Hand, pile: seq<Card>)
  {
    FromCards(pile).Ok? && IsSupersetOf(h, FromCards(pile).value)
  }

  /** The pending event says the challenger turned over their own skull. */
  predicate SelfSkullCorrectlyDeclared(pending: Option<Event>)
  {
    && pending.Some?
    && pending.value.ChallengerChoseSkull?
    && pending.value.challenger == pending.value.skullPlayer
  }

  /** The indices lo, lo + 1, ..., hi - 1 (Rust's `(lo..hi).collect()`). */
  function Range(lo: nat, hi: nat): (r: seq<nat>)
    ensures |r| == if lo <= hi then hi - lo else 0
    ensures forall k :: 0 <= k < |r| ==> r[k] == lo + k
  {
    seq(if lo <= hi then hi - lo else 0, k => lo + k)
  }

  /**
   * Nobody has won unless a game-won event is pending, and then exactly one
   * player has, and the winner is still in.
   */
  predicate ScoresValid(s: Snapshot)
    requires Shaped(s)
  {
    var winners := multiset(s.scores)[2];
    match s.pending
    case Some(ChallengeWonGameWon(w)) => winners == 1 && w < PlayerCount(s) && !IsPlayerOut(s, w)
    case _ => winners == 0
  }

  /**
   * Among the players still in (there is at least one), pile lengths differ
   * by at most one.
   */
  predicate PilesBalanced(s: Snapshot)
    requires Shaped(s)
  {
    && RemainingPlayerCount(s) >= 1
    && forall i, j :: 0 <= i < PlayerCount(s) && 0 <= j < PlayerCount(s) && !IsPlayerOut(s, i) && !IsPlayerOut(s, j)
         ==> |s.played[i]| <= |s.played[j]| + 1
  }

  /**
   * The challenger's own cards are flipped as the check expects: with a
   * target no larger than their pile, exactly the positions from
   * `4 - target` up to their hand's count, taken literally; otherwise the
   * whole pile. A skull among those cards must have been declared as the
   * challenger's own.
   */
  predicate OwnFlipsValid(s: Snapshot)
    requires Shaped(s) && s.state.Challenging? && s.state.challenger < PlayerCount(s)
  {
    var c, target, flipped := s.state.challenger, s.state.target, s.state.flipped;
    var pile := s.played[c];
    if target <= |pile| then
      var offset := 4 - target;
      && flipped[c] == Range(offset, Count(s.hands[c]))
      && offset <= |pile|
      && (Skull in pile[offset..] ==> SelfSkullCorrectlyDeclared(s.pending))
    else
      && |flipped[c]| == |pile|
      && (Skull in pile ==> SelfSkullCorrectlyDeclared(s.pending))
  }

  /** The checks that depend on the phase of play. */
  predicate StateValid(s: Snapshot)
    requires Shaped(s)
  {
    var n := PlayerCount(s);
    match s.state
    case Playing(p) =>
      p < n && !IsPlayerOut(s, p)
    case Bidding(bidder, bid, highest, maxBid, passed) =>
      && bidder < n && !IsPlayerOut(s, bidder)
      && bid < maxBid
      && highest < n && !IsPlayerOut(s, highest)
      && bidder != highest
      && RemainingPlayerCount(s) >= 2
      && multiset(passed)[true] <= RemainingPlayerCount(s) - 2
    case Challenging(c, target, flipped) =>
      && c < n && !IsPlayerOut(s, c)
      && target <= CardsPlayedCount(s)
      && target >= SumLengths(flipped)
      && FlipsValid(s.played, flipped)
      && (s.pending != Some(ChallengeStarted) ==> OwnFlipsValid(s))
      && FlippedSkulls(s) == (if s.pending.Some? && s.pending.value.ChallengerChoseSkull? then 1 else 0)
      && (SumLengths(flipped) == target ==>
            s.pending == Some(if s.scores[c] != 2 then ChallengeWon(c) else ChallengeWonGameWon(c)))
  }

  /** `assert_valid` completes without a panic. */
  predicate Valid(s: Snapshot)
    requires Shaped(s)
  {
    var n := PlayerCount(s);
    && (forall i :: 0 <= i < n ==> s.scores[i] <= 2)
    && (forall i :: 0 <= i < n ==> Hands.Valid(s.hands[i]))
    && (forall i :: 0 <= i < n ==> PileFitsHand(s.hands[i], s.played[i]))
    && (!s.state.Playing? ==> CardsPlayedCount(s) >= RemainingPlayerCount(s))
    && ScoresValid(s)
    && PilesBalanced(s)
    && StateValid(s)
  }

  /** `n` copies of `true` hold `n` trues. */
  lemma {:induction false} AllTrueCount(n: nat)
    ensures multiset(seq(n, _ => true))[true] == n
  {
    if n > 0 {
      AllTrueCount(n - 1);
      assert seq(n, _ => true) == seq(n - 1, _ => true) + [true];
    }
  }

  /**
   * The game `new` builds passes the check: no scores, full hands, empty
   * piles, player 0 to play a card.
   */
  lemma NewIsValid(n: nat)
    requires 3 <= n <= 6
    ensures Shaped(Initial(n)) && Valid(Initial(n))
    ensures CardsPlayedCount(Initial(n)) == 0 && RemainingPlayerCount(Initial(n)) == n
    ensures ExpectedInput(Initial(n)) == InputType.PlayCard
  {
    var s := Initial(n);
    assert forall i :: 0 <= i < n ==> s.hands[i] == Hands.New() && s.played[i] == [];
    assert multiset(s.hands)[EmptyHand()] == 0;
    assert multiset(s.scores)[2] == 0;
    assert FromCards([]) == Ok(EmptyHand());
  }

  /** In a valid challenge the flip lists are ones the validator accepts. */
  lemma ValidFlipsValid(s: Snapshot)
    requires Shaped(s) && Valid(s)
    ensures s.state.Challenging? ==> FlipsValid(s.played, s.state.flipped)
  {
  }

  /**
   * In a valid challenge that has reached its target, with the game not
   * yet won, the win is pending for the challenger, and handing the turn
   * to the challenger with nothing pending keeps the game valid.
   */
  lemma ChallengeWonKeepsValid(s: Snapshot, t: Snapshot)
    requires Shaped(s) && Valid(s) && s.state.Challenging?
    requires SumLengths(s.state.flipped) == s.state.target
    requires s.scores[s.state.challenger] != 2
    requires t == s.(state := Playing(s.state.challenger), pending := None)
    ensures s.pending == Some(ChallengeWon(s.state.challenger))
    ensures Shaped(t) && Valid(t)
  {
    assert StateValid(s);
    assert ScoresValid(s);
    assert PilesBalanced(s);
    assert RemainingPlayerCount(t) == RemainingPlayerCount(s);
  }

  /**
   * In a valid bidding round not every player has passed, so moving to the
   * next bidder cannot loop forever.
   */
  lemma ValidBiddingHasBidder(s: Snapshot)
    requires Shaped(s) && Valid(s) && s.state.Bidding?
    ensures s.state.passed != seq(PlayerCount(s), _ => true)
  {
    AllTrueCount(PlayerCount(s));
  }

  /**
   * In a valid game every player's pile is part of their hand, so no pile
   * is longer than its owner's hand.
   */
  lemma ValidPilesWithinHands(s: Snapshot, i: nat)
    requires Shaped(s) && Valid(s) && i < PlayerCount(s)
    ensures multiset(s.played[i]) <= Contents(s.hands[i])
    ensures |s.played[i]| <= Count(s.hands[i])
  {
    FromCardsContents(s.played[i]);
  }

  /**
   * When a valid game asks for a card or a bid, one is accepted: the player
   * can play a card they hold, and can bid the number of cards on the table.
   */
  lemma RequestedInputAnswerable(s: Snapshot)
    requires Shaped(s) && Valid(s) && s.state.Playing?
    ensures var p := s.state.currentPlayer;
      var card := if s.hands[p].skull then Skull else Flower;
      && (ExpectedInput(s) != StartBid ==> Accepts(s, Response.PlayCard(card)))
      && (ExpectedInput(s) != InputType.PlayCard ==> Accepts(s, Bid(CardsPlayedCount(s))))
  {
  }
}
