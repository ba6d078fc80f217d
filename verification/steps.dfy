/**
 * What one call of `what_next` or `respond` does to a game, as functions on
 * snapshots, and what those steps keep or break. The `Game` class's methods
 * are proved to update their state exactly as these functions say.
 */
module Steps {
  import opened Wrappers
  import opened Cards
  import opened Hands
  import opened Rules
  import Validation

  /**
   * Whether `what_next` gets through: a pending event is neither a request
   * for input (`unreachable!`) nor `ChallengeStarted` (`todo!`), and with
   * nothing pending the player to play has a seat to index.
   */
  predicate CanAsk(s: Snapshot)
  {
    && (s.pending.Some? ==> !s.pending.value.Input? && !s.pending.value.ChallengeStarted?)
    && (s.pending.None? && s.state.Playing? ==> s.state.currentPlayer < PlayerCount(s))
  }

  /** The event `what_next` hands out: the pending one, or a request for input. */
  function NextEvent(s: Snapshot): Event
    requires Shaped(s) && CanAsk(s)
  {
    match s.pending
    case Some(e) => e
    case None => Input(Player(s), ExpectedInput(s))
  }

  /**
   * The game after `what_next`: a pending event is cleared, and one that
   * ends a challenge hands the turn to the player it names.
   */
  function AfterNext(s: Snapshot): Snapshot
    requires CanAsk(s)
  {
    match s.pending
    case None => s
    case Some(e) =>
      var state := match e
        case ChallengerChoseSkull(_, skullPlayer) => Playing(skullPlayer)
        case ChallengeWon(p) => Playing(p)
        case _ => s.state;
      s.(state := state, pending := None)
  }

  /**
   * The game after `respond(r)` in one of its implemented branches.
   * `choice` stands for the random draw of a discard.
   */
  function Step(s: Snapshot, r: Response, choice: nat): Snapshot
    requires Shaped(s) && Accepts(s, r)
  {
    var n := PlayerCount(s);
    var total := CardsPlayedCount(s);
    match (s.state, r)
    case (Playing(p), PlayCard(c)) =>
      s.(played := s.played[p := s.played[p] + [c]], state := Playing((p + 1) % n))
    case (Playing(p), Bid(b)) =>
      if b < total then
        s.(state := Bidding((p + 1) % n, b, p, total, seq(n, _ => false)), pending := Some(BidStarted))
      else
        s.(state := Challenging(p, total, seq(n, _ => [])), pending := Some(ChallengeStarted))
    case (Challenging(_, _, _), Flip(i, j)) =>
      if s.played[i][j] == Skull then SkullFlipped(s, i, choice) else FlowerFlipped(s, i, j)
  }

  /** A skull turned over: the challenger discards, and the skull's owner is reported. */
  function SkullFlipped(s: Snapshot, i: nat, choice: nat): Snapshot
    requires s.state.Challenging? && s.state.challenger < |s.hands| && !Empty(s.hands[s.state.challenger])
  {
    var ch := s.state.challenger;
    s.(hands := s.hands[ch := Discarded(s.hands[ch], choice)],
       pending := Some(ChallengerChoseSkull(ch, i)))
  }

  /**
   * A flower turned over: the flip is recorded, and the challenger scores
   * when the flip count taken before the flip equals the target.
   */
  function FlowerFlipped(s: Snapshot, i: nat, j: nat): Snapshot
    requires s.state.Challenging? && i < |s.state.flipped|
    requires SumLengths(s.state.flipped) == s.state.target ==>
      s.state.challenger < |s.scores| && s.scores[s.state.challenger] < 255
  {
    var ch, target, flipped := s.state.challenger, s.state.target, s.state.flipped;
    var pushed := s.(state := Challenging(ch, target, flipped[i := flipped[i] + [j]]));
    if SumLengths(flipped) == target then
      var score := s.scores[ch] + 1;
      pushed.(scores := s.scores[ch := score],
              pending := Some(if score == 2 then ChallengeWonGameWon(ch) else ChallengeWon(ch)))
    else
      pushed
  }

  /**
   * After a pending event is handed out nothing is pending, and asking
   * again, where that does not panic, changes nothing more. An event that
   * ends a challenge gives the named player the turn; the other two that
   * can be pending (`BidStarted`, `ChallengeWonGameWon`) leave the phase as
   * it was.
   */
  lemma DrainOnce(s: Snapshot)
    requires Shaped(s) && s.pending.Some? && CanAsk(s)
    ensures NextEvent(s) == s.pending.value
    ensures AfterNext(s).pending == None
    ensures CanAsk(AfterNext(s)) ==> AfterNext(AfterNext(s)) == AfterNext(s)
    ensures AfterNext(s).played == s.played && AfterNext(s).hands == s.hands && AfterNext(s).scores == s.scores
    ensures s.pending.value.ChallengerChoseSkull? ==> AfterNext(s).state == Playing(s.pending.value.skullPlayer)
    ensures s.pending.value.ChallengeWon? ==> AfterNext(s).state == Playing(s.pending.value.player)
    ensures !s.pending.value.ChallengerChoseSkull? && !s.pending.value.ChallengeWon? ==> AfterNext(s).state == s.state
  {
  }

  /** With nothing pending, `what_next` only asks, and asking again gives the same answer. */
  lemma AskIsIdempotent(s: Snapshot)
    requires Shaped(s) && s.pending.None? && CanAsk(s)
    ensures AfterNext(s) == s
    ensures NextEvent(s).Input? && NextEvent(s).player == Player(s)
  {
  }

  /** The number of players left changes only with the one hand replaced. */
  lemma {:induction false} RemainingUpdate(hands: seq<Hand>, i: nat, h: Hand)
    requires i < |hands|
    ensures Remaining(hands[i := h]) + (if Empty(hands[i]) then 0 else 1)
         == Remaining(hands) + (if Empty(h) then 0 else 1)
  {
    if i > 0 {
      assert hands[i := h][1..] == hands[1..][i - 1 := h];
      RemainingUpdate(hands[1..], i - 1, h);
    }
  }

  /** Pushing one index onto a flip list adds the card it points at. */
  lemma {:induction false} SkullsAtAppend(pile: seq<Card>, idx: seq<nat>, j: nat)
    requires forall k :: 0 <= k < |idx| ==> idx[k] < |pile|
    requires j < |pile|
    ensures SkullsAt(pile, idx + [j]) == SkullsAt(pile, idx) + (if pile[j] == Skull then 1 else 0)
  {
    if idx != [] {
      assert (idx + [j])[1..] == idx[1..] + [j];
      SkullsAtAppend(pile, idx[1..], j);
    }
  }

  /** Replacing one flip list changes the skull total by that list's change. */
  lemma {:induction false} SkullsFlippedUpdate(played: seq<seq<Card>>, flipped: seq<seq<nat>>, i: nat, x: seq<nat>)
    requires FlipsInRange(played, flipped)
    requires i < |flipped|
    requires forall k :: 0 <= k < |x| ==> x[k] < |played[i]|
    ensures FlipsInRange(played, flipped[i := x])
    ensures SkullsFlipped(played, flipped[i := x]) + SkullsAt(played[i], flipped[i])
         == SkullsFlipped(played, flipped) + SkullsAt(played[i], x)
  {
    var f := flipped[i := x];
    assert FlipsInRange(played, f) by {
      forall a, k | 0 <= a < |f| && 0 <= k < |f[a]| ensures f[a][k] < |played[a]| {
        if a != i {
          assert f[a] == flipped[a];
        }
      }
    }
    if i > 0 {
      assert f[1..] == flipped[1..][i - 1 := x];
      assert FlipsInRange(played[1..], flipped[1..]) by {
        forall a, k | 0 <= a < |flipped| - 1 && 0 <= k < |flipped[1..][a]|
          ensures flipped[1..][a][k] < |played[1..][a]|
        {
          assert flipped[1..][a] == flipped[a + 1];
        }
      }
      SkullsFlippedUpdate(played[1..], flipped[1..], i - 1, x);
    }
  }

  /**
   * Playing a card puts it on top of the player's own pile, adds one to the
   * cards on the table and passes the turn to the next seat; no other pile,
   * hand or score changes.
   */
  lemma PlayCardStep(s: Snapshot, c: Card, choice: nat)
    requires Shaped(s) && s.state.Playing? && Accepts(s, Response.PlayCard(c))
    ensures var t, p := Step(s, Response.PlayCard(c), choice), s.state.currentPlayer;
      && Shaped(t)
      && CardsPlayedCount(t) == CardsPlayedCount(s) + 1
      && t.played[p] == s.played[p] + [c]
      && (forall i :: 0 <= i < PlayerCount(s) && i != p ==> t.played[i] == s.played[i])
      && t.hands == s.hands && t.scores == s.scores && t.pending == s.pending
      && t.state == Playing((p + 1) % PlayerCount(s))
  {
    var p := s.state.currentPlayer;
    SumLengthsUpdate(s.played, p, s.played[p] + [c]);
  }

  /**
   * Nothing stops the turn passing to a player who is out: when the next
   * seat's hand is empty, the game after a card is played is not valid.
   */
  lemma PlayCardMayPassToOutPlayer(s: Snapshot, c: Card, choice: nat)
    requires Shaped(s) && s.state.Playing? && Accepts(s, Response.PlayCard(c))
    requires IsPlayerOut(s, (s.state.currentPlayer + 1) % PlayerCount(s))
    ensures Shaped(Step(s, Response.PlayCard(c), choice))
    ensures !Validation.Valid(Step(s, Response.PlayCard(c), choice))
  {
    PlayCardStep(s, c, choice);
  }

  /**
   * Nothing stops a player playing a card that is already on their pile:
   * when every copy of the card they hold is already on the table, it is
   * still accepted, and afterwards their pile no longer fits their hand.
   */
  lemma PlayCardAlreadyPlayed(s: Snapshot, c: Card, choice: nat)
    requires Shaped(s) && s.state.Playing? && Accepts(s, Response.PlayCard(c))
    requires multiset(s.played[s.state.currentPlayer])[c] == Contents(s.hands[s.state.currentPlayer])[c]
    ensures var p := s.state.currentPlayer;
      !Validation.PileFitsHand(s.hands[p], Step(s, Response.PlayCard(c), choice).played[p])
  {
    var p := s.state.currentPlayer;
    var pile := s.played[p] + [c];
    PlayCardStep(s, c, choice);
    FromCardsContents(pile);
    assert multiset(pile)[c] == multiset(s.played[p])[c] + 1;
  }

  /** No player has passed in a fresh bidding round. */
  lemma {:induction false} NonePassed(n: nat)
    ensures multiset(seq(n, _ => false))[true] == 0
  {
    if n > 0 {
      NonePassed(n - 1);
      assert seq(n, _ => false) == seq(n - 1, _ => false) + [false];
    }
  }

  /**
   * A bid from the player to play either opens a bidding round below the
   * number of cards on the table, led by that player, with nobody passed
   * and the next seat to bid; or, at that number, starts a challenge on it
   * with nothing flipped. Cards, hands and scores do not change.
   */
  lemma BidStep(s: Snapshot, b: nat, choice: nat)
    requires Shaped(s) && s.state.Playing? && Accepts(s, Bid(b))
    ensures var t, p, n := Step(s, Bid(b), choice), s.state.currentPlayer, PlayerCount(s);
      && Shaped(t)
      && t.played == s.played && t.hands == s.hands && t.scores == s.scores
      && (t.state.Bidding? <==> b < CardsPlayedCount(s))
      && (t.state.Challenging? <==> b == CardsPlayedCount(s))
      && (t.state.Bidding? ==>
            && t.state.highestBid == b < t.state.maxBid == CardsPlayedCount(s)
            && t.state.highestBidder == p
            && t.state.currentBidder == (p + 1) % n
            && multiset(t.state.passed)[true] == 0
            && t.pending == Some(BidStarted))
      && (t.state.Challenging? ==>
            && t.state.challenger == p
            && t.state.target == CardsPlayedCount(s)
            && CardsFlippedCount(t) == Some(0)
            && FlipsValid(t.played, t.state.flipped)
            && FlippedSkulls(t) == 0
            && t.pending == Some(ChallengeStarted))
  {
    NonePassed(PlayerCount(s));
  }

  /**
   * Turning over a flower records the flip and keeps the flip lists
   * valid; piles and hands do not change.
   */
  lemma FlipFlowerStep(s: Snapshot, i: nat, j: nat, choice: nat)
    requires Shaped(s) && s.state.Challenging? && FlipsValid(s.played, s.state.flipped)
    requires Accepts(s, Flip(i, j)) && s.played[i][j] == Flower
    ensures var t := Step(s, Flip(i, j), choice);
      && Shaped(t) && t.state.Challenging?
      && FlipsValid(t.played, t.state.flipped)
      && t.state.flipped == s.state.flipped[i := s.state.flipped[i] + [j]]
      && t.played == s.played && t.hands == s.hands
  {
    var flipped := s.state.flipped;
    FlipListHasRoom(s.played, flipped, i, j);
    var t := Step(s, Flip(i, j), choice);
    assert t.state == Challenging(s.state.challenger, s.state.target, flipped[i := flipped[i] + [j]]);
  }

  /**
   * Turning over a flower adds one to the flip count and leaves the count
   * of skulls turned over as it was.
   */
  lemma FlipFlowerCounts(s: Snapshot, i: nat, j: nat, choice: nat)
    requires Shaped(s) && s.state.Challenging? && FlipsValid(s.played, s.state.flipped)
    requires Accepts(s, Flip(i, j)) && s.played[i][j] == Flower
    ensures var t := Step(s, Flip(i, j), choice);
      && t.state.Challenging? && FlipsInRange(t.played, t.state.flipped)
      && CardsFlippedCount(t) == Some(SumLengths(s.state.flipped) + 1)
      && FlippedSkulls(t) == FlippedSkulls(s)
  {
    var flipped := s.state.flipped;
    var x := flipped[i] + [j];
    FlipFlowerStep(s, i, j, choice);
    var t := Step(s, Flip(i, j), choice);
    var f := t.state.flipped;
    assert f == flipped[i := x] && t.played == s.played;
    SumLengthsUpdate(flipped, i, x);
    assert SumLengths(f) == SumLengths(flipped) + 1;
    SkullsAtAppend(s.played[i], flipped[i], j);
    SkullsFlippedUpdate(s.played, flipped, i, x);
    assert SkullsFlipped(t.played, f) == SkullsFlipped(s.played, flipped);
  }

  /**
   * After a flower is turned over the challenger scores exactly when the
   * flip count before the flip equals the target, and then the event says
   * whether the game is won; otherwise nothing new is pending.
   */
  lemma FlipFlowerScore(s: Snapshot, i: nat, j: nat, choice: nat)
    requires Shaped(s) && s.state.Challenging?
    requires Accepts(s, Flip(i, j)) && s.played[i][j] == Flower
    ensures var t, ch := Step(s, Flip(i, j), choice), s.state.challenger;
      && (t.scores != s.scores <==> SumLengths(s.state.flipped) == s.state.target)
      && (SumLengths(s.state.flipped) == s.state.target ==>
            && t.scores == s.scores[ch := s.scores[ch] + 1]
            && t.pending == Some(if t.scores[ch] == 2 then ChallengeWonGameWon(ch) else ChallengeWon(ch)))
      && (SumLengths(s.state.flipped) != s.state.target ==> t.pending == s.pending)
  {
    var ch := s.state.challenger;
    var t := Step(s, Flip(i, j), choice);
    if SumLengths(s.state.flipped) == s.state.target {
      assert t.scores[ch] != s.scores[ch];
    }
  }

  /**
   * Turning over a skull costs the challenger one card of their hand (the
   * one `choice` picks) and reports whose skull it was; the flip is not
   * recorded, and the challenger may be left out.
   */
  lemma FlipSkullStep(s: Snapshot, i: nat, j: nat, choice: nat)
    requires Shaped(s) && s.state.Challenging?
    requires Accepts(s, Flip(i, j)) && s.played[i][j] == Skull
    ensures var t, ch := Step(s, Flip(i, j), choice), s.state.challenger;
      && Shaped(t)
      && t.state == s.state && t.played == s.played && t.scores == s.scores
      && t.hands[ch] == Discarded(s.hands[ch], choice)
      && Count(t.hands[ch]) + 1 == Count(s.hands[ch])
      && (forall k :: 0 <= k < PlayerCount(s) && k != ch ==> t.hands[k] == s.hands[k])
      && t.pending == Some(ChallengerChoseSkull(ch, i))
      && RemainingPlayerCount(t) + (if Empty(t.hands[ch]) then 1 else 0) == RemainingPlayerCount(s)
  {
    var ch := s.state.challenger;
    RemainingUpdate(s.hands, ch, Discarded(s.hands[ch], choice));
  }

  /**
   * The flip that brings the count up to the target declares nothing,
   * because the count is compared before the flip is recorded; with
   * nothing pending before, that leaves a game the validator rejects, a
   * reached target with no win declared.
   */
  lemma WinDeclaredOneFlipLate(s: Snapshot, i: nat, j: nat, choice: nat)
    requires Shaped(s) && s.state.Challenging? && FlipsValid(s.played, s.state.flipped)
    requires Accepts(s, Flip(i, j)) && s.played[i][j] == Flower
    requires SumLengths(s.state.flipped) + 1 == s.state.target
    requires s.pending == None
    ensures var t := Step(s, Flip(i, j), choice);
      && Shaped(t)
      && CardsFlippedCount(t) == Some(s.state.target)
      && t.pending == None && t.scores == s.scores
      && !Validation.Valid(t)
  {
    FlipFlowerStep(s, i, j, choice);
    FlipFlowerCounts(s, i, j, choice);
    FlipFlowerScore(s, i, j, choice);
    var t := Step(s, Flip(i, j), choice);
    assert SumLengths(t.state.flipped) == t.state.target;
    assert !Validation.StateValid(t);
  }

  /** Lists no longer than their partners, one strictly shorter, total less. */
  lemma {:induction false} SumLengthsBelow(f: seq<seq<nat>>, p: seq<seq<Card>>, i: nat)
    requires |f| == |p| && i < |f|
    requires forall k :: 0 <= k < |f| ==> |f[k]| <= |p[k]|
    requires |f[i]| < |p[i]|
    ensures SumLengths(f) < SumLengths(p)
  {
    if i > 0 {
      SumLengthsBelow(f[1..], p[1..], i - 1);
    } else if |f| > 1 {
      SumLengthsAtMost(f[1..], p[1..]);
    }
  }

  /** Lists no longer than their partners total no more. */
  lemma {:induction false} SumLengthsAtMost(f: seq<seq<nat>>, p: seq<seq<Card>>)
    requires |f| == |p|
    requires forall k :: 0 <= k < |f| ==> |f[k]| <= |p[k]|
    ensures SumLengths(f) <= SumLengths(p)
  {
    if f != [] {
      SumLengthsAtMost(f[1..], p[1..]);
    }
  }

  /**
   * A challenge on every card on the table, which is the only kind a bid
   * from the player to play starts, is never won by a flip: any flip still
   * allowed finds fewer cards flipped than the target, so the comparison
   * made before the flip is recorded never succeeds: no score changes and
   * the only event a flip can leave is a skull report.
   */
  lemma FullTargetNeverScores(s: Snapshot, i: nat, j: nat, choice: nat)
    requires Shaped(s) && s.state.Challenging? && FlipsValid(s.played, s.state.flipped)
    requires s.state.target == CardsPlayedCount(s)
    requires Accepts(s, Flip(i, j))
    ensures SumLengths(s.state.flipped) < s.state.target
    ensures Step(s, Flip(i, j), choice).scores == s.scores
    ensures Step(s, Flip(i, j), choice).pending in {s.pending, Some(ChallengerChoseSkull(s.state.challenger, i))}
  {
    FlipListHasRoom(s.played, s.state.flipped, i, j);
    SumLengthsBelow(s.state.flipped, s.played, i);
    if s.played[i][j] == Flower {
      FlipFlowerScore(s, i, j, choice);
    }
  }

  /**
   * Every implemented branch of `respond` keeps the game's shape and, in a
   * challenge, the validity of the flip lists.
   */
  lemma StepKeepsShape(s: Snapshot, r: Response, choice: nat)
    requires Shaped(s) && (s.state.Challenging? ==> FlipsValid(s.played, s.state.flipped))
    requires Accepts(s, r)
    ensures var t := Step(s, r, choice);
      && Shaped(t) && (t.state.Challenging? ==> FlipsValid(t.played, t.state.flipped))
  {
    match (s.state, r)
    case (Playing(_), PlayCard(c)) => PlayCardStep(s, c, choice);
    case (Playing(_), Bid(b)) => BidStep(s, b, choice);
    case (Challenging(_, _, _), Flip(i, j)) =>
      if s.played[i][j] == Skull {
        FlipSkullStep(s, i, j, choice);
      } else {
        FlipFlowerStep(s, i, j, choice);
      }
  }
}
