/**
 * Short games driven through the `Game` object, from `Game::new`, with
 * the events a caller would see.
 */
module Scenarios {
  import opened Wrappers
  import opened Cards
  import opened Hands
  import opened Rules
  import opened Engine
  import Steps

  /** The game after player 0 of a fresh three-player game plays their skull. */
  function SkullDown(): Snapshot
  {
    Initial(3).(played := [[Skull], [], []], state := Playing(1))
  }

  /** The snapshot facts behind `OpeningTurn`. */
  lemma OpeningTurnSteps()
    ensures Shaped(Initial(3)) && Shaped(SkullDown())
    ensures Steps.NextEvent(Initial(3)) == Input(0, InputType.PlayCard)
    ensures Steps.AfterNext(Initial(3)) == Initial(3)
    ensures Accepts(Initial(3), Response.PlayCard(Skull))
    ensures Steps.Step(Initial(3), Response.PlayCard(Skull), 0) == SkullDown()
    ensures Steps.NextEvent(SkullDown()) == Input(1, InputType.PlayCard)
  {
    DealingStartsFresh();
    DealStep(0, 0);
    DealingShaped(0, 1);
    assert Dealt(0) == [] && Dealt(1) == [Skull];
    assert Dealing(0, 1) == SkullDown();
  }

  /**
   * A fresh three-player game asks player 0 for a card, asks the same again
   * when nothing has happened, and after player 0 plays asks player 1.
   */
  method OpeningTurn() returns (first: Event, again: Event, afterPlay: Event)
    ensures first == Input(0, InputType.PlayCard)
    ensures again == first
    ensures afterPlay == Input(1, InputType.PlayCard)
  {
    OpeningTurnSteps();
    var g := new Game.New(3);
    first := g.WhatNext();
    again := g.WhatNext();
    g.Respond(Response.PlayCard(Skull), 0);
    afterPlay := g.WhatNext();
  }

  /** The card every player plays in a given round: the skull first, then flowers. */
  function NextCard(round: nat): Card
  {
    if round == 0 then Skull else Flower
  }

  /** A pile after k rounds. */
  function Dealt(k: nat): (pile: seq<Card>)
    requires k <= 4
    ensures |pile| == k
    ensures forall i :: 0 <= i < k ==> (pile[i] == Skull <==> i == 0)
  {
    if k == 0 then [] else [Skull] + seq(k - 1, _ => Flower)
  }

  /**
   * A fresh three-player game part way through dealing: `round` full
   * rounds done, and the players before `seat` done with the next one.
   */
  function Dealing(round: nat, seat: nat): Snapshot
    requires round <= 4 && seat < 3 && (round == 4 ==> seat == 0)
  {
    var pile := (i: nat) requires i < 3 => if i < seat then Dealt(round + 1) else Dealt(round);
    Snapshot([0, 0, 0], [Hands.New(), Hands.New(), Hands.New()], [pile(0), pile(1), pile(2)],
             Playing(seat), None)
  }

  /** A pile one round further holds one more of the round's card. */
  lemma DealtSnoc(round: nat)
    requires round < 4
    ensures Dealt(round + 1) == Dealt(round) + [NextCard(round)]
  {
    if round > 0 {
      assert seq(round, _ => Flower) == seq(round - 1, _ => Flower) + [Flower];
    }
  }

  /** Part way through dealing the game has its shape, and the seat to play has `round` cards down. */
  lemma DealingShaped(round: nat, seat: nat)
    requires round < 4 && seat < 3
    ensures Shaped(Dealing(round, seat))
    ensures Dealing(round, seat).played[seat] == Dealt(round)
  {
    var before, after := Dealt(round), Dealt(round + 1);
    var played := Dealing(round, seat).played;
    assert played == [if 0 < seat then after else before, if 1 < seat then after else before, before];
  }

  /** The piles one seat further on: the seat to play has the next round's pile. */
  lemma DealingNext(round: nat, seat: nat)
    requires round < 4 && seat < 3
    ensures Dealing(round, seat).played[seat := Dealt(round + 1)]
         == (if seat < 2 then Dealing(round, seat + 1) else Dealing(round + 1, 0)).played
  {
    var before, after := Dealt(round), Dealt(round + 1);
    if seat == 0 {
      assert Dealing(round, seat).played == [before, before, before];
      assert Dealing(round, 1).played == [after, before, before];
    } else if seat == 1 {
      assert Dealing(round, seat).played == [after, before, before];
      assert Dealing(round, 2).played == [after, after, before];
    } else {
      assert Dealing(round, seat).played == [after, after, before];
      assert Dealing(round + 1, 0).played == [after, after, after];
    }
  }

  /** The player to play may play the round's card, and the deal moves on one seat. */
  lemma DealStep(round: nat, seat: nat)
    requires round < 4 && seat < 3
    ensures Shaped(Dealing(round, seat))
    ensures Accepts(Dealing(round, seat), Response.PlayCard(NextCard(round)))
    ensures Steps.Step(Dealing(round, seat), Response.PlayCard(NextCard(round)), 0)
         == if seat < 2 then Dealing(round, seat + 1) else Dealing(round + 1, 0)
  {
    var s, c := Dealing(round, seat), NextCard(round);
    DealtSnoc(round);
    DealingShaped(round, seat);
    DealingNext(round, seat);
    assert Steps.Step(s, Response.PlayCard(c), 0)
        == s.(played := s.played[seat := Dealt(round + 1)], state := Playing((seat + 1) % 3));
  }

  /** Before any card is dealt the game is the one `Game::new` builds. */
  lemma DealingStartsFresh()
    ensures Dealing(0, 0) == Initial(3)
  {
    var s, t := Dealing(0, 0), Initial(3);
    assert s.scores == t.scores;
    assert s.hands == t.hands;
    assert Dealt(0) == [];
    assert forall i :: 0 <= i < 3 ==> s.played[i] == t.played[i];
    assert s.played == t.played;
  }

  /** Deals one full round: each player in seat order plays the round's card. */
  method DealRound(g: Game, round: nat)
    requires round < 4
    requires g.WellFormed() && g.View() == Dealing(round, 0)
    modifies g, g.scores, g.hands, g.played
    ensures g.WellFormed() && g.View() == Dealing(round + 1, 0)
  {
    DealStep(round, 0);
    g.Respond(Response.PlayCard(NextCard(round)), 0);
    DealStep(round, 1);
    g.Respond(Response.PlayCard(NextCard(round)), 0);
    DealStep(round, 2);
    g.Respond(Response.PlayCard(NextCard(round)), 0);
  }

  /** A fresh three-player game with one round dealt: a skull from each player. */
  method DealOneRound() returns (g: Game)
    ensures fresh(g) && fresh(g.scores) && fresh(g.hands) && fresh(g.played)
    ensures g.WellFormed() && g.View() == Dealing(1, 0)
  {
    DealingStartsFresh();
    g := new Game.New(3);
    DealRound(g, 0);
  }

  /** The game once every player has bid-ready cards down: one skull each. */
  function OneRound(): Snapshot
  {
    Dealing(1, 0)
  }

  /** The snapshot facts behind `OpeningBid` and `MaxBidChallenges`. */
  lemma OneRoundSteps()
    ensures Shaped(OneRound()) && CardsPlayedCount(OneRound()) == 3
    ensures Steps.NextEvent(OneRound()) == Input(0, PlayCardOrStartBid)
    ensures Accepts(OneRound(), Bid(2)) && Accepts(OneRound(), Bid(3))
    ensures Steps.Step(OneRound(), Bid(2), 0)
         == OneRound().(state := Bidding(1, 2, 0, 3, [false, false, false]), pending := Some(BidStarted))
    ensures Steps.Step(OneRound(), Bid(3), 0)
         == OneRound().(state := Challenging(0, 3, [[], [], []]), pending := Some(ChallengeStarted))
  {
    var s := OneRound();
    assert Dealt(1) == [Skull];
    assert s.played == [[Skull], [Skull], [Skull]];
    assert seq(3, _ => false) == [false, false, false];
    var none: seq<seq<nat>> := [[], [], []];
    assert seq(3, _ => []) == none;
    assert CardsPlayedCount(s) == 3 && PlayerCount(s) == 3;
    assert Steps.Step(s, Bid(3), 0).state == Challenging(0, 3, none);
  }

  /**
   * Once every player has a card down, player 0 may play or bid; a bid of
   * 2 of the 3 cards opens a bidding round that player 1 is asked to join.
   */
  method OpeningBid() returns (offer: Event, bidding: State, started: Event, asked: Event)
    ensures offer == Input(0, PlayCardOrStartBid)
    ensures bidding == Bidding(1, 2, 0, 3, [false, false, false])
    ensures started == BidStarted
    ensures asked == Input(1, BidOrPass)
  {
    OneRoundSteps();
    var g := DealOneRound();
    offer := g.WhatNext();
    g.Respond(Bid(2), 0);
    bidding := g.state;
    started := g.WhatNext();
    asked := g.WhatNext();
  }

  /**
   * Bidding every card on the table skips the bidding round: player 0
   * challenges for all 3 cards with nothing flipped yet.
   */
  method MaxBidChallenges() returns (challenge: State, announced: Option<Event>)
    ensures challenge == Challenging(0, 3, [[], [], []])
    ensures announced == Some(ChallengeStarted)
  {
    OneRoundSteps();
    var g := DealOneRound();
    g.Respond(Bid(3), 0);
    challenge := g.state;
    announced := g.pending;
  }

  /** The challenge a bid of every card in `OneRound` starts. */
  function ChallengeAll(): Snapshot
  {
    OneRound().(state := Challenging(0, 3, [[], [], []]), pending := Some(ChallengeStarted))
  }

  /** The game after the challenger turns over player 1's skull. */
  function SkullFound(choice: nat): Snapshot
  {
    ChallengeAll().(hands := [Discarded(Hands.New(), choice), Hands.New(), Hands.New()],
                    pending := Some(ChallengerChoseSkull(0, 1)))
  }

  /** The snapshot facts behind `SkullCostsACard`. */
  lemma SkullFoundSteps(choice: nat)
    ensures Shaped(ChallengeAll()) && Shaped(SkullFound(choice))
    ensures Accepts(ChallengeAll(), Flip(1, 0))
    ensures Steps.Step(ChallengeAll(), Flip(1, 0), choice) == SkullFound(choice)
    ensures Steps.NextEvent(SkullFound(choice)) == ChallengerChoseSkull(0, 1)
    ensures Steps.AfterNext(SkullFound(choice)).state == Playing(1)
  {
    var s := ChallengeAll();
    assert Dealt(1) == [Skull];
    assert s.played[1] == [Skull];
    assert s.hands[0 := Discarded(Hands.New(), choice)] == SkullFound(choice).hands;
  }

  /**
   * The challenger turning over player 1's skull (the engine does not make
   * them turn over their own cards first) costs them a card, and handing
   * out the event gives player 1 the turn.
   */
  method SkullCostsACard(choice: nat) returns (e: Event, left: nat, next: State)
    ensures e == ChallengerChoseSkull(0, 1)
    ensures left == 3
    ensures next == Playing(1)
  {
    OneRoundSteps();
    SkullFoundSteps(choice);
    var g := DealOneRound();
    g.Respond(Bid(3), 0);
    g.Respond(Flip(1, 0), choice);
    left := Count(g.hands[0]);
    e := g.WhatNext();
    next := g.state;
  }

  /**
   * A player whose pile is as long as their hand can only bid: after four
   * rounds, player 0 is asked to start a bid.
   */
  method FullPileMustBid() returns (asked: Event)
    ensures asked == Input(0, StartBid)
  {
    var g := DealOneRound();
    DealRound(g, 1);
    DealRound(g, 2);
    DealRound(g, 3);
    assert g.played[0] == Dealt(4);
    asked := g.WhatNext();
  }
}
