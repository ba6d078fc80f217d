/**
 * A player's hand: a multiset over the two card kinds, stored as one skull
 * flag and a count of flowers. Playing a card does not take it out of the
 * hand (the pile beside it records what has been played); only a discard
 * after a lost challenge shrinks a hand.
 */
module Hands {
  import opened Wrappers
  import opened Cards

  /** Rust's `u8`. */
  type uint8 = x: int | 0 <= x < 0x100

  datatype Hand = Hand(skull: bool, flowers: uint8)

  datatype HandError = MultipleSkulls | TooManyFlowers | RhsNotSubset(lhs: Hand, rhs: Hand)

  /** The hand seen as the multiset of cards it holds. */
  function Contents(h: Hand): multiset<Card>
  {
    multiset{}[Skull := if h.skull then 1 else 0][Flower := h.flowers]
  }

  /** The hand with no cards (Rust's derived `Default`, not `new`). */
  function EmptyHand(): (h: Hand)
    ensures Contents(h) == multiset{}
  {
    Hand(false, 0)
  }

  /** The full starting hand. */
  function New(): (h: Hand)
    ensures Contents(h) == multiset{Skull, Flower, Flower, Flower}
  {
    Hand(true, 3)
  }

  function HasSkull(h: Hand): (r: bool)
    ensures r <==> Skull in Contents(h)
  {
    h.skull
  }

  function Has(h: Hand, c: Card): (r: bool)
    ensures r <==> c in Contents(h)
  {
    match c
    case Skull => HasSkull(h)
    case Flower => h.flowers > 0
  }

  /** The number of cards held (Rust's `u8` sum; see README for the width). */
  function Count(h: Hand): (r: nat)
    ensures r == |Contents(h)|
  {
    h.flowers + if h.skull then 1 else 0
  }

  function Empty(h: Hand): (r: bool)
    ensures r <==> Contents(h) == multiset{}
    ensures r <==> h == EmptyHand()
  {
    Count(h) == 0
  }

  /** The cards of the hand as a list: the skull first, then the flowers. */
  function AsVec(h: Hand): (r: seq<Card>)
    ensures multiset(r) == Contents(h)
    ensures |r| == Count(h)
    ensures forall i :: 0 <= i < |r| ==> (r[i] == Skull <==> i == 0 && h.skull)
  {
    var v := seq(h.flowers, _ => Flower);
    FlowersMultiset(h.flowers);
    if h.skull then [Skull] + v else v
  }

  /** A sequence of n flowers holds n flowers and nothing else. */
  lemma {:induction false} FlowersMultiset(n: nat)
    ensures multiset(seq(n, _ => Flower)) == multiset{}[Flower := n]
  {
    if n > 0 {
      FlowersMultiset(n - 1);
      assert seq(n, _ => Flower) == seq(n - 1, _ => Flower) + [Flower];
    }
  }

  /** Multiset inclusion for hands, read off the two components. */
  lemma ContentsIncluded(a: Hand, b: Hand)
    ensures Contents(a) <= Contents(b) <==> (b.skull || !a.skull) && a.flowers <= b.flowers
  {
    if (b.skull || !a.skull) && a.flowers <= b.flowers {
      forall c: Card ensures Contents(a)[c] <= Contents(b)[c] { }
    } else {
      assert Contents(a)[Skull] > Contents(b)[Skull] || Contents(a)[Flower] > Contents(b)[Flower];
    }
  }

  /** Two hands holding the same cards are the same hand. */
  lemma ContentsInjective(a: Hand, b: Hand)
    requires Contents(a) == Contents(b)
    ensures a == b
  {
    assert Contents(a)[Skull] == Contents(b)[Skull];
    assert Contents(a)[Flower] == Contents(b)[Flower];
  }

  /** True when every card of `other` is also in `h`. */
  function IsSupersetOf(h: Hand, other: Hand): (r: bool)
    ensures r <==> Contents(other) <= Contents(h)
  {
    ContentsIncluded(other, h);
    var skullOk := h.skull == other.skull || (h.skull && !other.skull);
    var flowersOk := h.flowers >= other.flowers;
    skullOk && flowersOk
  }

  /** A hand is valid when it fits in the starting hand. */
  function Valid(h: Hand): (r: bool)
    ensures r <==> IsSupersetOf(New(), h)
  {
    h.flowers < 4
  }

  /** Hand minus hand; fails when `rhs` holds a card `h` does not. */
  function Sub(h: Hand, rhs: Hand): (r: Result<Hand, HandError>)
    ensures r.Err? <==> !(Contents(rhs) <= Contents(h))
    ensures r.Err? ==> r.error == RhsNotSubset(h, rhs)
    ensures r.Ok? ==> Contents(r.value) == Contents(h) - Contents(rhs)
    ensures r.Ok? ==> Count(r.value) == Count(h) - Count(rhs)
  {
    if !IsSupersetOf(h, rhs) then
      Err(RhsNotSubset(h, rhs))
    else
      ContentsIncluded(rhs, h);
      var d := Hand(h.skull != rhs.skull, h.flowers - rhs.flowers);
      assert forall c: Card :: (Contents(h) - Contents(rhs))[c] == Contents(d)[c];
      Ok(d)
  }

  /** One step of reading cards into a hand: the card the loop body adds. */
  function AddCard(h: Hand, c: Card): Result<Hand, HandError>
  {
    match c
    case Skull => if !h.skull then Ok(h.(skull := true)) else Err(MultipleSkulls)
    case Flower => if h.flowers < 3 then Ok(h.(flowers := h.flowers + 1)) else Err(TooManyFlowers)
  }

  /**
   * The result of reading the first `i` cards left to right: the first
   * error met, or the hand they make.
   */
  function ReadPrefix(cards: seq<Card>, i: nat): (r: Result<Hand, HandError>)
    requires i <= |cards|
    ensures r.Ok? ==> Valid(r.value) && Count(r.value) == i
    ensures r.Err? ==> r.error == MultipleSkulls || r.error == TooManyFlowers
  {
    if i == 0 then Ok(EmptyHand())
    else
      match ReadPrefix(cards, i - 1)
      case Err(e) => Err(e)
      case Ok(h) => AddCard(h, cards[i - 1])
  }

  /** The hand a list of cards makes, or the first error met. Specifies `TryFrom`. */
  function FromCards(cards: seq<Card>): (r: Result<Hand, HandError>)
    ensures r.Ok? ==> Valid(r.value) && Count(r.value) == |cards|
  {
    ReadPrefix(cards, |cards|)
  }

  /** Once a prefix fails, every longer prefix fails with the same error. */
  lemma {:induction false} ErrorSticks(cards: seq<Card>, k: nat, j: nat)
    requires k <= j <= |cards|
    requires ReadPrefix(cards, k).Err?
    ensures ReadPrefix(cards, j) == ReadPrefix(cards, k)
    decreases j - k
  {
    if k < j {
      ErrorSticks(cards, k, j - 1);
    }
  }

  /**
   * Reading succeeds exactly when the cards read hold at most one skull and
   * at most three flowers, and then the hand holds exactly those cards.
   */
  lemma {:induction false} ReadPrefixContents(cards: seq<Card>, i: nat)
    requires i <= |cards|
    ensures var m := multiset(cards[..i]);
      && (ReadPrefix(cards, i).Ok? <==> m[Skull] <= 1 && m[Flower] <= 3)
      && (ReadPrefix(cards, i).Ok? ==> Contents(ReadPrefix(cards, i).value) == m)
  {
    if i > 0 {
      ReadPrefixContents(cards, i - 1);
      assert cards[..i] == cards[..i - 1] + [cards[i - 1]];
      assert multiset(cards[..i]) == multiset(cards[..i - 1]) + multiset{cards[i - 1]};
      if ReadPrefix(cards, i - 1).Ok? {
        AddCardContents(ReadPrefix(cards, i - 1).value, cards[i - 1]);
      }
    }
  }

  /** `FromCards` succeeds exactly on lists of at most one skull and three flowers, keeping the cards. */
  lemma FromCardsContents(cards: seq<Card>)
    ensures FromCards(cards).Ok? <==> multiset(cards)[Skull] <= 1 && multiset(cards)[Flower] <= 3
    ensures FromCards(cards).Ok? ==> Contents(FromCards(cards).value) == multiset(cards)
  {
    ReadPrefixContents(cards, |cards|);
    assert cards[..|cards|] == cards;
  }

  /** Adding a card succeeds exactly when the result still fits a hand, and adds that card. */
  lemma AddCardContents(h: Hand, c: Card)
    requires Valid(h)
    ensures var m := Contents(h) + multiset{c};
      && (AddCard(h, c).Ok? <==> m[Skull] <= 1 && m[Flower] <= 3)
      && (AddCard(h, c).Ok? ==> Contents(AddCard(h, c).value) == m)
  {
    var m := Contents(h) + multiset{c};
    if AddCard(h, c).Ok? {
      var g := AddCard(h, c).value;
      forall d: Card ensures Contents(g)[d] == m[d] { }
    }
  }

  /** Adding a card to a valid hand fails only on a second skull or a fourth flower. */
  lemma AddCardFails(h: Hand, c: Card)
    requires Valid(h) && AddCard(h, c).Err?
    ensures AddCard(h, c).error == if c == Skull then MultipleSkulls else TooManyFlowers
    ensures Contents(h)[c] == if c == Skull then 1 else 3
  {
  }

  /** The cards of a prefix one longer: one more copy of the next card. */
  lemma PrefixSnoc(cards: seq<Card>, k: nat)
    requires k < |cards|
    ensures multiset(cards[..k + 1]) == multiset(cards[..k]) + multiset{cards[k]}
  {
    assert cards[..k + 1] == cards[..k] + [cards[k]];
  }

  /**
   * At the first position k where reading fails, the card there is the
   * second skull or the fourth flower, and it decides the error.
   */
  lemma FirstError(cards: seq<Card>, k: nat)
    requires k < |cards|
    requires ReadPrefix(cards, k).Ok? && ReadPrefix(cards, k + 1).Err?
    ensures FromCards(cards) == Err(if cards[k] == Skull then MultipleSkulls else TooManyFlowers)
    ensures multiset(cards[..k + 1])[cards[k]] == if cards[k] == Skull then 2 else 4
  {
    var h, c := ReadPrefix(cards, k).value, cards[k];
    assert ReadPrefix(cards, k + 1) == AddCard(h, c);
    AddCardFails(h, c);
    ErrorSticks(cards, k + 1, |cards|);
    ReadPrefixContents(cards, k);
    PrefixSnoc(cards, k);
  }

  /** Listing a valid hand and reading the list back gives the same hand. */
  lemma AsVecRoundTrip(h: Hand)
    requires Valid(h)
    ensures FromCards(AsVec(h)) == Ok(h)
  {
    FromCardsContents(AsVec(h));
    ContentsInjective(FromCards(AsVec(h)).value, h);
  }

  /** Hand minus a list of cards: the list is read into a hand first. */
  function SubCards(h: Hand, cards: seq<Card>): (r: Result<Hand, HandError>)
    ensures FromCards(cards).Err? ==> r == FromCards(cards)
    ensures r.Ok? <==> multiset(cards)[Skull] <= 1 && multiset(cards)[Flower] <= 3 && multiset(cards) <= Contents(h)
    ensures r.Ok? ==> Contents(r.value) == Contents(h) - multiset(cards) && Count(r.value) + |cards| == Count(h)
  {
    FromCardsContents(cards);
    match FromCards(cards)
    case Err(e) => Err(e)
    case Ok(rhs) => Sub(h, rhs)
  }

  /**
   * The hand after discarding one card. When both kinds are held the random
   * draw `choice` decides: 0 discards the skull, anything else a flower.
   * Specifies `DiscardOne`.
   */
  function Discarded(h: Hand, choice: nat): (r: Hand)
    requires !Empty(h)
    ensures Count(r) + 1 == Count(h)
    ensures Contents(r) <= Contents(h)
    ensures !h.skull ==> Contents(h) == Contents(r) + multiset{Flower}
    ensures h.flowers == 0 ==> Contents(h) == Contents(r) + multiset{Skull}
    ensures h.skull && h.flowers > 0 ==> (r.skull <==> choice != 0)
  {
    var r :=
      if h.skull && h.flowers > 0 then
        if choice == 0 then h.(skull := false) else h.(flowers := h.flowers - 1)
      else if h.skull then h.(skull := false)
      else h.(flowers := h.flowers - 1);
    ContentsIncluded(r, h);
    assert forall c: Card :: Contents(h)[c] == (Contents(r) + multiset{Flower})[c] || h.skull;
    assert forall c: Card :: Contents(h)[c] == (Contents(r) + multiset{Skull})[c] || h.flowers > 0;
    r
  }

  /** Discards one card of a non-empty hand (in place, in the game's hand array). */
  method DiscardOne(h: Hand, choice: nat) returns (r: Hand)
    requires !Empty(h)
    ensures r == Discarded(h, choice)
  {
    r := h;
    if r.skull && r.flowers > 0 {
      if choice == 0 {
        r := r.(skull := false);
      } else {
        r := r.(flowers := r.flowers - 1);
      }
    } else if r.skull {
      r := r.(skull := false);
    } else {
      r := r.(flowers := r.flowers - 1);
    }
  }

  /** Reads a list of cards into a hand, scanning left to right. */
  method TryFrom(cards: seq<Card>) returns (r: Result<Hand, HandError>)
    ensures r == FromCards(cards)
  {
    var skull := false;
    var flowers: uint8 := 0;
    var i := 0;
    while i < |cards|
      invariant i <= |cards|
      invariant ReadPrefix(cards, i) == Ok(Hand(skull, flowers))
    {
      ghost var next := AddCard(Hand(skull, flowers), cards[i]);
      assert ReadPrefix(cards, i + 1) == next;
      match cards[i] {
        case Skull =>
          if !skull {
            skull := true;
          } else {
            ErrorSticks(cards, i + 1, |cards|);
            return Err(MultipleSkulls);
          }
        case Flower =>
          if flowers < 3 {
            flowers := flowers + 1;
          } else {
            ErrorSticks(cards, i + 1, |cards|);
            return Err(TooManyFlowers);
          }
      }
      assert next == Ok(Hand(skull, flowers));
      i := i + 1;
    }
    return Ok(Hand(skull, flowers));
  }

  /** The starting hand holds one skull and three flowers, and every valid hand fits in it. */
  lemma NewIsFull(h: Hand)
    requires Valid(h)
    ensures Has(New(), Skull) && Has(New(), Flower) && Count(New()) == 4 && !Empty(New())
    ensures IsSupersetOf(New(), h)
  {
  }

  /** Inclusion is reflexive and transitive. */
  lemma SupersetPreorder(a: Hand, b: Hand, c: Hand)
    ensures IsSupersetOf(a, a)
    ensures IsSupersetOf(a, b) && IsSupersetOf(b, c) ==> IsSupersetOf(a, c)
  {
  }

  /** Subtracting a subset leaves a subset of the original. */
  lemma SubIsSubset(h: Hand, rhs: Hand)
    requires Sub(h, rhs).Ok?
    ensures IsSupersetOf(h, Sub(h, rhs).value)
    ensures Sub(h, rhs).value == EmptyHand() <==> h == rhs
  {
    var d := Sub(h, rhs).value;
    if d == EmptyHand() {
      assert Contents(h) - Contents(rhs) == multiset{};
      assert Contents(h) == Contents(rhs) by {
        forall c: Card ensures Contents(h)[c] == Contents(rhs)[c] {
          assert (Contents(h) - Contents(rhs))[c] == 0;
        }
      }
      ContentsInjective(h, rhs);
    }
  }
}
