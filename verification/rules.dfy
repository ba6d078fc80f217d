/**
 * The game's data as a value, and the read-only queries the engine and its
 * validator ask of it. `Snapshot` holds what a `Game` holds apart from its
 * random number generator.
 */
module Rules {
  import opened Wrappers
  import opened Cards
  import opened Hands

  datatype Snapshot = Snapshot(
    scores: seq<uint8>,
    hands: seq<Hand>,
    played: seq<seq<Card>>,  // each pile ordered bottom to top
    state: State,
    pending: Option<Event>)

  /**
   * What Rust's types and the constructors' player-count check guarantee:
   * N players with 3 <= N <= 6, one entry per player in every per-player
   * array, and at most 4 entries in each fixed-capacity pile or flip list.
   */
  predicate Shaped(s: Snapshot)
  {
    var n := |s.hands|;
    && 3 <= n <= 6
    && |s.scores| == n
    && |s.played| == n
    && (forall i :: 0 <= i < n ==> |s.played[i]| <= 4)
    && match s.state
       case Playing(_) => true
       case Bidding(_, _, _, _, passed) => |passed| == n
       case Challenging(_, _, flipped) => |flipped| == n && forall i :: 0 <= i < n ==> |flipped[i]| <= 4
  }

  function PlayerCount(s: Snapshot): nat
  {
    |s.hands|
  }

  /** A player is out when their hand is empty. */
  function IsPlayerOut(s: Snapshot, i: nat): (r: bool)
    requires i < |s.hands|
    ensures r <==> Contents(s.hands[i]) == multiset{}
  {
    Empty(s.hands[i])
  }

  /** The game `new` builds for n players. */
  function Initial(n: nat): Snapshot
  {
    Snapshot(seq(n, _ => 0), seq(n, _ => Hands.New()), seq(n, _ => []), Playing(0), None)
  }

  /** The number of players whose hand is not empty. */
  function Remaining(hands: seq<Hand>): (r: nat)
    ensures r + multiset(hands)[EmptyHand()] == |hands|
    ensures r == 0 <==> forall i :: 0 <= i < |hands| ==> Empty(hands[i])
  {
    if hands == [] then 0
    else
      assert hands == [hands[0]] + hands[1..];
      assert multiset(hands) == multiset{hands[0]} + multiset(hands[1..]);
      (if Empty(hands[0]) then 0 else 1) + Remaining(hands[1..])
  }

  function RemainingPlayerCount(s: Snapshot): (r: nat)
    ensures r <= PlayerCount(s)
  {
    Remaining(s.hands)
  }

  /** The player whose input is awaited: current player, current bidder or challenger. */
  function Player(s: Snapshot): nat
  {
    match s.state
    case Playing(p) => p
    case Bidding(p, _, _, _, _) => p
    case Challenging(p, _, _) => p
  }

  /** The total length of a list of lists. */
  function SumLengths<T>(ss: seq<seq<T>>): (r: nat)
    ensures r == 0 <==> forall i :: 0 <= i < |ss| ==> ss[i] == []
  {
    if ss == [] then 0 else |ss[0]| + SumLengths(ss[1..])
  }

  /** Replacing one list changes the total by the difference in its length. */
  lemma {:induction false} SumLengthsUpdate<T>(ss: seq<seq<T>>, i: nat, x: seq<T>)
    requires i < |ss|
    ensures SumLengths(ss[i := x]) + |ss[i]| == SumLengths(ss) + |x|
  {
    if i > 0 {
      assert ss[i := x][1..] == ss[1..][i - 1 := x];
      SumLengthsUpdate(ss[1..], i - 1, x);
    }
  }

  /** The number of cards on the table. */
  function CardsPlayedCount(s: Snapshot): nat
  {
    SumLengths(s.played)
  }

  /** The number of cards turned over, when a challenge is on. */
  function CardsFlippedCount(s: Snapshot): (r: Option<nat>)
    ensures r.Some? <==> s.state.Challenging?
  {
    match s.state
    case Challenging(_, _, flipped) => Some(SumLengths(flipped))
    case _ => None
  }

  /**
   * The input the awaited player must give when no event is pending. In
   * Playing: they may play while their pile is shorter than their hand,
   * and may bid once at least one card per player is on the table or they
   * have nothing left to play.
   */
  function ExpectedInput(s: Snapshot): (k: InputType)
    requires Shaped(s)
    requires s.state.Playing? ==> s.state.currentPlayer < PlayerCount(s)
    ensures s.state.Bidding? <==> k == BidOrPass
    ensures s.state.Challenging? <==> k == FlipCard
    ensures s.state.Playing? ==>
      var p := s.state.currentPlayer;
      && (k == InputType.PlayCard || k == PlayCardOrStartBid <==> |s.played[p]| < Count(s.hands[p]))
      && (k == PlayCardOrStartBid || k == StartBid <==>
            |s.played[p]| >= Count(s.hands[p]) || CardsPlayedCount(s) >= PlayerCount(s))
  {
    match s.state
    case Playing(p) =>
      if |s.played[p]| < Count(s.hands[p]) then
        if CardsPlayedCount(s) >= PlayerCount(s) then PlayCardOrStartBid else InputType.PlayCard
      else
        StartBid
    case Bidding(_, _, _, _, _) => BidOrPass
    case Challenging(_, _, _) => FlipCard
  }

  /**
   * Scanning left to right and recording each element in `seen`, no element
   * was seen before.
   */
  function UniqueAfter(xs: seq<nat>, seen: set<nat>): (r: bool)
    ensures r <==>
      && (forall i, j :: 0 <= i < j < |xs| ==> xs[i] != xs[j])
      && (forall i :: 0 <= i < |xs| ==> xs[i] !in seen)
  {
    if xs == [] then true
    else
      if xs[0] in seen then false
      else
        var r := UniqueAfter(xs[1..], seen + {xs[0]});
        assert forall i :: 1 <= i < |xs| ==> xs[i] == xs[1..][i - 1];
        r
  }

  /** True when no element occurs twice. */
  function HasUniqueElements(xs: seq<nat>): (r: bool)
    ensures r <==> forall i, j :: 0 <= i < j < |xs| ==> xs[i] != xs[j]
  {
    UniqueAfter(xs, {})
  }

  /**
   * `has_unique_elements`: inserts each element into a set of those seen,
   * answering false at the first one already there.
   */
  method CheckUnique(xs: seq<nat>) returns (r: bool)
    ensures r == HasUniqueElements(xs)
  {
    var seen: set<nat> := {};
    var i := 0;
    while i < |xs|
      invariant i <= |xs|
      invariant forall x :: x in seen <==> x in xs[..i]
      invariant forall a, b :: 0 <= a < b < i ==> xs[a] != xs[b]
    {
      if xs[i] in seen {
        assert xs[i] in xs[..i];
        return false;
      }
      seen := seen + {xs[i]};
      assert xs[..i + 1] == xs[..i] + [xs[i]];
      i := i + 1;
    }
    return true;
  }

  /** The indices below m. */
  function Below(m: nat): (r: set<nat>)
    ensures |r| == m
    ensures forall k: nat :: k in r <==> k < m
  {
    if m == 0 then {}
    else
      var b := Below(m - 1);
      assert m - 1 !in b;
      b + {m - 1}
  }

  /** Distinct indices below m number at most m. */
  lemma UniqueBelowBound(xs: seq<nat>, m: nat)
    requires HasUniqueElements(xs)
    requires forall i :: 0 <= i < |xs| ==> xs[i] < m
    ensures |xs| <= m
  {
    var elems := Elements(xs);
    SetOfUniqueSize(xs);
    assert elems <= Below(m) by {
      forall x | x in elems ensures x in Below(m) {
        var i :| 0 <= i < |xs| && xs[i] == x;
      }
    }
    SubsetSize(elems, Below(m));
  }

  /** The set of elements of a list. */
  function Elements(xs: seq<nat>): (r: set<nat>)
    ensures forall x :: x in r <==> x in xs
  {
    set x | x in xs
  }

  /** A list without repeats has as many elements as its set. */
  lemma {:induction false} SetOfUniqueSize(xs: seq<nat>)
    requires HasUniqueElements(xs)
    ensures |Elements(xs)| == |xs|
  {
    if xs != [] {
      var t := xs[1..];
      assert forall i :: 0 <= i < |t| ==> t[i] == xs[i + 1];
      assert HasUniqueElements(t);
      SetOfUniqueSize(t);
      assert xs[0] !in t;
      var a, b := Elements(xs), Elements(t);
      assert a == b + {xs[0]} by {
        assert xs == [xs[0]] + t;
      }
      assert xs[0] !in b;
    }
  }

  lemma {:induction false} SubsetSize(a: set<nat>, b: set<nat>)
    requires a <= b
    ensures |a| <= |b|
  {
    assert b == a + (b - a);
  }

  /** Every recorded flip points into its player's pile. */
  predicate FlipsInRange(played: seq<seq<Card>>, flipped: seq<seq<nat>>)
  {
    && |flipped| == |played|
    && forall i, k :: 0 <= i < |flipped| && 0 <= k < |flipped[i]| ==> flipped[i][k] < |played[i]|
  }

  /**
   * The flip lists the validator accepts: each within its pile, no longer
   * than it, and without repeats.
   */
  predicate FlipsValid(played: seq<seq<Card>>, flipped: seq<seq<nat>>)
  {
    && FlipsInRange(played, flipped)
    && forall i :: 0 <= i < |flipped| ==> |flipped[i]| <= |played[i]| && HasUniqueElements(flipped[i])
  }

  /**
   * A flip the challenger may still make into pile i always has room in
   * that pile's flip list, so the push onto it never overflows.
   */
  lemma FlipListHasRoom(played: seq<seq<Card>>, flipped: seq<seq<nat>>, i: nat, j: nat)
    requires FlipsValid(played, flipped)
    requires i < |flipped| && j < |played[i]| && j !in flipped[i]
    ensures FlipsValid(played, flipped[i := flipped[i] + [j]])
    ensures |flipped[i]| < |played[i]|
  {
    var xs := flipped[i] + [j];
    assert HasUniqueElements(xs);
    assert forall k :: 0 <= k < |xs| ==> xs[k] < |played[i]|;
    UniqueBelowBound(xs, |played[i]|);
  }

  /** How many of the listed positions of one pile hold a skull. */
  function SkullsAt(pile: seq<Card>, idx: seq<nat>): (r: nat)
    requires forall k :: 0 <= k < |idx| ==> idx[k] < |pile|
    ensures r <= |idx|
    ensures r == 0 <==> forall k :: 0 <= k < |idx| ==> pile[idx[k]] == Flower
  {
    if idx == [] then 0
    else (if pile[idx[0]] == Skull then 1 else 0) + SkullsAt(pile, idx[1..])
  }

  /** How many flipped cards, over all piles, are skulls. */
  function SkullsFlipped(played: seq<seq<Card>>, flipped: seq<seq<nat>>): (r: nat)
    requires FlipsInRange(played, flipped)
    ensures r <= SumLengths(flipped)
    ensures r == 0 <==> forall i, k :: 0 <= i < |flipped| && 0 <= k < |flipped[i]| ==> played[i][flipped[i][k]] == Flower
  {
    if flipped == [] then 0
    else
      var r := SkullsAt(played[0], flipped[0]) + SkullsFlipped(played[1..], flipped[1..]);
      assert forall i :: 1 <= i < |flipped| ==> flipped[i] == flipped[1..][i - 1] && played[i] == played[1..][i - 1];
      r
  }

  /** The number of skulls turned over in the challenge on. */
  function FlippedSkulls(s: Snapshot): (r: nat)
    requires s.state.Challenging? && FlipsInRange(s.played, s.state.flipped)
    ensures r <= SumLengths(s.state.flipped)
  {
    SkullsFlipped(s.played, s.state.flipped)
  }

  /**
   * The number of steps forward, around a table of n seats, from seat
   * `from` to seat `to`.
   */
  function Dist(from: nat, to: nat, n: nat): (r: nat)
    requires from < n && to < n
    ensures r < n
    ensures (from + r) % n == to
  {
    if from <= to then
      ModBelow(to, n);
      to - from
    else
      ModWrap(to + n, n);
      to + n - from
  }

  /** A number below the modulus is its own remainder. */
  lemma ModBelow(x: nat, n: nat)
    requires x < n
    ensures x % n == x
  {
  }

  /** A number between the modulus and twice it wraps round once. */
  lemma ModWrap(x: nat, n: nat)
    requires n <= x < 2 * n
    ensures x % n == x - n
  {
  }

  /** One seat further round the table is one step further away, short of a full turn. */
  lemma DistNext(from: nat, x: nat, n: nat)
    requires from < n && x < n && Dist(from, x, n) < n - 1
    ensures Dist(from, (x + 1) % n, n) == Dist(from, x, n) + 1
  {
    if x + 1 == n {
      assert (x + 1) % n == 0;
    } else {
      assert (x + 1) % n == x + 1;
    }
  }

  /**
   * `to` is the first seat, going round the table from `start` (included),
   * whose player has not passed.
   */
  predicate IsFirstUnpassed(passed: seq<bool>, start: nat, to: nat)
    requires start < |passed|
  {
    && to < |passed|
    && !passed[to]
    && forall m :: 0 <= m < |passed| && Dist(start, m, |passed|) < Dist(start, to, |passed|) ==> passed[m]
  }

  /** There is at most one such seat. */
  lemma FirstUnpassedUnique(passed: seq<bool>, start: nat, a: nat, b: nat)
    requires start < |passed|
    requires IsFirstUnpassed(passed, start, a) && IsFirstUnpassed(passed, start, b)
    ensures a == b
  {
    var n := |passed|;
    if Dist(start, a, n) == Dist(start, b, n) {
      assert (start + Dist(start, a, n)) % n == a;
    }
  }

  /**
   * Whether `respond` gets through every `assert!`, `unwrap` and index it
   * meets for this response, reaching the end of an implemented branch.
   */
  predicate Accepts(s: Snapshot, r: Response)
    requires Shaped(s)
  {
    match (s.state, r)
    case (Playing(p), PlayCard(c)) =>
      p < PlayerCount(s) && Has(s.hands[p], c) && |s.played[p]| < 4
    case (Playing(_), Bid(b)) =>
      b <= CardsPlayedCount(s)
    case (Challenging(ch, target, flipped), Flip(i, j)) =>
      && i < PlayerCount(s)
      && j < Count(s.hands[i])
      && j !in flipped[i]
      && j < |s.played[i]|
      && |flipped[i]| < 4
      && (s.played[i][j] == Skull ==> ch < PlayerCount(s) && !Empty(s.hands[ch]))
      && (s.played[i][j] == Flower && SumLengths(flipped) == target ==>
            ch < PlayerCount(s) && s.scores[ch] < 255)
    case _ => false
  }
}
