/**
 * The game engine as the object callers drive: per-player arrays of
 * scores, hands and piles, updated in place, with the phase and the
 * pending event as fields. Its methods are proved to change the game
 * exactly as the functions of `Steps` say.
 */
module Engine {
  import opened Wrappers
  import opened Cards
  import opened Hands
  import opened Rules
  import opened Steps
  import Validation

  /** A fresh array holding the given elements. */
  method ArrayOf<T>(xs: seq<T>) returns (a: array<T>)
    ensures fresh(a) && a[..] == xs
  {
    a := new T[|xs|](i requires 0 <= i < |xs| => xs[i]);
  }

  /**
   * The bidder search of `increment_player`: step round the table from
   * `start` until a seat whose player has not passed.
   */
  method NextUnpassed(passed: seq<bool>, start: nat) returns (cur: nat)
    requires start < |passed| && passed != seq(|passed|, _ => true)
    ensures IsFirstUnpassed(passed, start, cur)
  {
    var n := |passed|;
    ghost var j :| 0 <= j < n && !passed[j];
    cur := start;
    while passed[cur]
      invariant cur < n
      invariant Dist(start, cur, n) <= Dist(start, j, n)
      invariant forall m :: 0 <= m < n && Dist(start, m, n) < Dist(start, cur, n) ==> passed[m]
      decreases Dist(start, j, n) - Dist(start, cur, n)
    {
      assert cur != j;
      DistNext(start, cur, n);
      cur := (cur + 1) % n;
    }
  }

  class Game {
    const scores: array<uint8>
    const hands: array<Hand>
    const played: array<seq<Card>>
    var state: State
    var pending: Option<Event>

    /** The game's data as a value. */
    function View(): Snapshot
      reads this, scores, hands, played
    {
      Snapshot(scores[..], hands[..], played[..], state, pending)
    }

    /**
     * What every method may rely on: the shape the Rust types give, and
     * flip lists the validator accepts while a challenge is on.
     */
    ghost predicate WellFormed()
      reads this, scores, hands, played
    {
      && Shaped(View())
      && (state.Challenging? ==> FlipsValid(played[..], state.flipped))
    }

    /** `Game::new`: n players, no scores, full hands, empty piles, player 0 to play. */
    constructor New(n: nat)
      requires 3 <= n <= 6
      ensures fresh(scores) && fresh(hands) && fresh(played)
      ensures WellFormed() && View() == Initial(n)
    {
      scores := new uint8[n](_ => 0);
      hands := new Hand[n](_ => Hands.New());
      played := new seq<Card>[n](_ => []);
      state := Playing(0);
      pending := None;
      new;
      assert View() == Initial(n);
    }

    /** `Game::create_from`: a game from raw parts, accepted only when the validator passes. */
    constructor CreateFrom(scores0: seq<uint8>, hands0: seq<Hand>, played0: seq<seq<Card>>,
                           state0: State, pending0: Option<Event>)
      requires Shaped(Snapshot(scores0, hands0, played0, state0, pending0))
      requires Validation.Valid(Snapshot(scores0, hands0, played0, state0, pending0))
      ensures fresh(scores) && fresh(hands) && fresh(played)
      ensures View() == Snapshot(scores0, hands0, played0, state0, pending0)
      ensures WellFormed()
    {
      Validation.ValidFlipsValid(Snapshot(scores0, hands0, played0, state0, pending0));
      var a := ArrayOf(scores0);
      var b := ArrayOf(hands0);
      var c := ArrayOf(played0);
      scores, hands, played := a, b, c;
      state := state0;
      pending := pending0;
    }

    /**
     * `what_next`: hands out the pending event, clearing it (one that ends
     * a challenge gives the named player the turn), or else asks the
     * awaited player for the kind of input the phase needs.
     */
    method WhatNext() returns (e: Event)
      requires WellFormed() && CanAsk(View())
      modifies this
      ensures e == NextEvent(old(View()))
      ensures View() == AfterNext(old(View()))
      ensures WellFormed()
    {
      match pending {
        case Some(event) =>
          match event {
            case ChallengerChoseSkull(_, skullPlayer) =>
              state := Playing(skullPlayer);
            case ChallengeWon(p) =>
              state := Playing(p);
            case _ =>
          }
          pending := None;
          e := event;
        case None =>
          var input: InputType;
          match state {
            case Playing(p) =>
              if |played[p]| < Count(hands[p]) {
                if CardsPlayedCount(View()) >= hands.Length {
                  input := PlayCardOrStartBid;
                } else {
                  input := InputType.PlayCard;
                }
              } else {
                input := StartBid;
              }
            case Bidding(_, _, _, _, _) =>
              input := BidOrPass;
            case Challenging(_, _, _) =>
              input := FlipCard;
          }
          e := Input(Player(View()), input);
      }
    }

    /**
     * `increment_player`: in play, the next seat (out or not); in bidding,
     * the first seat after the current bidder, going round, whose player
     * has not passed.
     */
    method IncrementPlayer()
      requires WellFormed()
      requires state.Playing? || state.Bidding?
      requires state.Playing? ==> state.currentPlayer < hands.Length
      requires state.Bidding? ==> state.passed != seq(hands.Length, _ => true)
      modifies this
      ensures scores[..] == old(scores[..]) && hands[..] == old(hands[..]) && played[..] == old(played[..])
      ensures pending == old(pending)
      ensures old(state).Playing? ==> state == Playing((old(state).currentPlayer + 1) % hands.Length)
      ensures old(state).Bidding? ==>
        && state.Bidding?
        && state == old(state).(currentBidder := state.currentBidder)
        && IsFirstUnpassed(state.passed, (old(state).currentBidder + 1) % hands.Length, state.currentBidder)
      ensures WellFormed()
    {
      var n := hands.Length;
      match state {
        case Playing(p) =>
          state := Playing((p + 1) % n);
        case Bidding(bidder, bid, highest, maxBid, passed) =>
          var cur := NextUnpassed(passed, (bidder + 1) % n);
          state := Bidding(cur, bid, highest, maxBid, passed);
      }
    }

    /**
     * `respond`, in its implemented branches: playing a card, a first bid
     * from the player to play, and a flip by the challenger. The counts of
     * cards played and flipped are taken before anything changes.
     */
    method Respond(response: Response, choice: nat)
      requires WellFormed() && Accepts(View(), response)
      modifies this, scores, hands, played
      ensures View() == Step(old(View()), response, choice)
      ensures WellFormed()
    {
      match (state, response) {
        case (Playing(_), PlayCard(c)) =>
          PlayCardTurn(c, choice);
        case (Playing(_), Bid(b)) =>
          OpenBid(b, choice);
        case (Challenging(_, _, _), Flip(i, j)) =>
          TurnOver(i, j, choice);
      }
    }

    /** The branch of `respond` that plays a card onto the player's own pile. */
    method PlayCardTurn(c: Card, choice: nat)
      requires WellFormed() && state.Playing? && Accepts(View(), Response.PlayCard(c))
      modifies this, played
      ensures View() == Step(old(View()), Response.PlayCard(c), choice)
      ensures WellFormed()
    {
      ghost var s := View();
      StepKeepsShape(s, Response.PlayCard(c), choice);
      var p := state.currentPlayer;
      played[p] := played[p] + [c];
      assert played[..] == s.played[p := s.played[p] + [c]];
      IncrementPlayer();
    }

    /** The branch of `respond` where the player to play starts the bidding. */
    method OpenBid(b: nat, choice: nat)
      requires WellFormed() && state.Playing? && Accepts(View(), Bid(b))
      modifies this
      ensures View() == Step(old(View()), Bid(b), choice)
      ensures WellFormed()
    {
      ghost var s := View();
      StepKeepsShape(s, Bid(b), choice);
      var n := hands.Length;
      var p := state.currentPlayer;
      var playedCount := CardsPlayedCount(View());
      if b < playedCount {
        state := Bidding((p + 1) % n, b, p, playedCount, seq(n, _ => false));
        pending := Some(BidStarted);
      } else {
        state := Challenging(p, playedCount, seq(n, _ => []));
        pending := Some(ChallengeStarted);
      }
    }

    /**
     * The branch of `respond` where the challenger turns a card over. The
     * flip count is taken before the flip is recorded.
     */
    method TurnOver(i: nat, j: nat, choice: nat)
      requires WellFormed() && state.Challenging? && Accepts(View(), Flip(i, j))
      modifies this, scores, hands
      ensures View() == Step(old(View()), Flip(i, j), choice)
      ensures WellFormed()
    {
      StepKeepsShape(View(), Flip(i, j), choice);
      var flippedCount := CardsFlippedCount(View());
      match played[i][j] {
        case Skull => SkullTurned(i, choice);
        case Flower => FlowerTurned(i, j, flippedCount.value);
      }
    }

    /** A skull turned over: the challenger discards one card at random. */
    method SkullTurned(i: nat, choice: nat)
      requires Shaped(View()) && state.Challenging?
      requires state.challenger < hands.Length && !Empty(hands[state.challenger])
      modifies this, hands
      ensures View() == SkullFlipped(old(View()), i, choice)
    {
      ghost var s := View();
      var ch := state.challenger;
      var h := DiscardOne(hands[ch], choice);
      hands[ch] := h;
      pending := Some(ChallengerChoseSkull(ch, i));
      assert hands[..] == s.hands[ch := Discarded(s.hands[ch], choice)];
    }

    /**
     * A flower turned over: the flip is recorded, and the challenger scores
     * when `flippedCount`, the count before the flip, equals the target.
     */
    method FlowerTurned(i: nat, j: nat, flippedCount: nat)
      requires Shaped(View()) && state.Challenging? && i < hands.Length
      requires flippedCount == SumLengths(state.flipped)
      requires flippedCount == state.target ==> state.challenger < hands.Length && scores[state.challenger] < 255
      modifies this, scores
      ensures View() == FlowerFlipped(old(View()), i, j)
    {
      ghost var s := View();
      var ch, target, flipped := state.challenger, state.target, state.flipped;
      state := Challenging(ch, target, flipped[i := flipped[i] + [j]]);
      if flippedCount == target {
        scores[ch] := scores[ch] + 1;
        assert scores[..] == s.scores[ch := s.scores[ch] + 1];
        pending := Some(if scores[ch] == 2 then ChallengeWonGameWon(ch) else ChallengeWon(ch));
      }
    }
  }
}
