/** Cards, the 52-card deck and the shoe (src/PlayingCards). */
module Cards {
  datatype Suit = Diamonds | Clubs | Hearts | Spades

  datatype Rank =
    | Two | Three | Four | Five | Six | Seven | Eight | Nine | Ten
    | Jack | Queen | King | Ace

  datatype Card = Card(suit: Suit, rank: Rank)

  datatype Option<+T> = None | Some(value: T)

  const NB_OF_CARDS := 52
  const SHOE_SIZE := 5

  // The order in which Deck::freshDeck visits the suits; it is not the enum's own order.
  const SUITS: seq<Suit> := [Diamonds, Spades, Clubs, Hearts]
  const NB_OF_RANKS := 13

  /** The cast from an integer to a rank. */
  function RankOf(i: nat): Rank
    requires i < NB_OF_RANKS
  {
    if i == 0 then Two else if i == 1 then Three else if i == 2 then Four else if i == 3 then Five
    else if i == 4 then Six else if i == 5 then Seven else if i == 6 then Eight else if i == 7 then Nine
    else if i == 8 then Ten else if i == 9 then Jack else if i == 10 then Queen else if i == 11 then King
    else Ace
  }

  /** `deck` holds every card exactly n times. */
  ghost predicate IsDecks(deck: seq<Card>, n: nat) {
    forall c: Card :: multiset(deck)[c] == n
  }

  ghost predicate NoDuplicates<T>(s: seq<T>) {
    forall i, j :: 0 <= i < j < |s| ==> s[i] != s[j]
  }

  function CardAt(i: nat): Card
    requires i < NB_OF_CARDS
  {
    Card(SUITS[i / 13], RankOf(i % 13))
  }

  function SuitIndex(s: Suit): (i: nat)
    ensures i < 4 && SUITS[i] == s
  {
    match s case Diamonds => 0 case Spades => 1 case Clubs => 2 case Hearts => 3
  }

  function RankIndex(r: Rank): (i: nat)
    ensures i < 13 && RankOf(i) == r
  {
    match r
    case Two => 0 case Three => 1 case Four => 2 case Five => 3 case Six => 4 case Seven => 5
    case Eight => 6 case Nine => 7 case Ten => 8 case Jack => 9 case Queen => 10 case King => 11
    case Ace => 12
  }

  lemma {:induction false} DistinctCount<T>(s: seq<T>, x: T)
    requires NoDuplicates(s)
    ensures multiset(s)[x] == if x in s then 1 else 0
  {
    if s != [] {
      var n := |s| - 1;
      assert s == s[..n] + [s[n]];
      DistinctCount(s[..n], x);
    }
  }

  lemma {:induction false} CardAtIsABijection(c: Card)
    ensures forall i: nat :: i < NB_OF_CARDS ==> (CardAt(i) == c <==> i == 13 * SuitIndex(c.suit) + RankIndex(c.rank))
  {
    forall i: nat | i < NB_OF_CARDS
      ensures CardAt(i) == c <==> i == 13 * SuitIndex(c.suit) + RankIndex(c.rank)
    {
      assert SuitIndex(SUITS[i / 13]) == i / 13;
      assert RankIndex(RankOf(i % 13)) == i % 13;
    }
  }

  lemma FreshDeckIsOneDeck(deck: seq<Card>)
    requires |deck| == NB_OF_CARDS && forall i: nat :: i < |deck| ==> deck[i] == CardAt(i)
    ensures IsDecks(deck, 1)
  {
    forall c: Card ensures multiset(deck)[c] == 1 {
      CardAtIsABijection(c);
      var i := 13 * SuitIndex(c.suit) + RankIndex(c.rank);
      assert deck[i] == CardAt(i) == c;
      assert NoDuplicates(deck) by {
        forall i: nat, j: nat | i < j < |deck| ensures deck[i] != deck[j] {
          CardAtIsABijection(deck[i]);
        }
      }
      DistinctCount(deck, c);
    }
  }

  lemma DecksAdd(a: seq<Card>, b: seq<Card>, m: nat, n: nat)
    requires IsDecks(a, m) && IsDecks(b, n)
    ensures IsDecks(a + b, m + n)
  {
    forall c: Card ensures multiset(a + b)[c] == m + n {
      assert multiset(a)[c] == m && multiset(b)[c] == n;
    }
  }

  /** Deck::freshDeck: one card of each suit and rank, suit by suit, ranks ascending. */
  method FreshDeck() returns (cards: seq<Card>)
    ensures |cards| == NB_OF_CARDS && IsDecks(cards, 1)
    ensures forall i: nat :: i < NB_OF_CARDS ==> cards[i] == CardAt(i)
    ensures forall i: nat :: i < NB_OF_CARDS ==>
      && cards[i].suit == (if i < 13 then Diamonds else if i < 26 then Spades else if i < 39 then Clubs else Hearts)
      && RankIndex(cards[i].rank) == i % 13
  {
    cards := [];
    for s := 0 to |SUITS|
      invariant |cards| == 13 * s
      invariant forall i: nat :: i < |cards| ==> i < NB_OF_CARDS && cards[i] == CardAt(i)
    {
      for r := 0 to NB_OF_RANKS
        invariant |cards| == 13 * s + r
        invariant forall i: nat :: i < |cards| ==> i < NB_OF_CARDS && cards[i] == CardAt(i)
      {
        assert (13 * s + r) / 13 == s && (13 * s + r) % 13 == r;
        cards := cards + [Card(SUITS[s], RankOf(r))];
      }
    }
    FreshDeckIsOneDeck(cards);
  }

  /** A single deck dealt from the front; `index` is the next card to deal. */
  class Deck {
    const cards: array<Card>
    var index: nat

    ghost predicate Valid()
      reads this, cards
    {
      cards.Length == NB_OF_CARDS && index <= NB_OF_CARDS && IsDecks(cards[..], 1)
    }

    constructor ()
      ensures Valid() && fresh(cards) && index == 0
    {
      var fresh52 := FreshDeck();
      cards := new Card[NB_OF_CARDS](i requires 0 <= i < NB_OF_CARDS => CardAt(i));
      index := 0;
      new;
      assert cards[..] == fresh52;
    }

    predicate IsEmpty()
      reads this
    {
      index >= NB_OF_CARDS
    }

    /** 52 swaps of two arbitrary positions; whatever they are, it is still one whole deck. */
    method Shuffle()
      requires Valid()
      modifies this`index, cards
      ensures Valid() && index == 0
      ensures multiset(cards[..]) == old(multiset(cards[..]))
    {
      for i := 0 to NB_OF_CARDS
        invariant multiset(cards[..]) == old(multiset(cards[..]))
      {
        var index1 :| 0 <= index1 < NB_OF_CARDS;
        var index2 :| 0 <= index2 < NB_OF_CARDS;
        cards[index1], cards[index2] := cards[index2], cards[index1];
      }
      index := 0;
    }

    /** Deals the next card, or None where the source throws NotEnoughCards. */
    method DealCard() returns (card: Option<Card>)
      requires Valid()
      modifies this`index
      ensures Valid()
      ensures card.None? <==> old(index) == NB_OF_CARDS
      ensures card.None? ==> index == old(index) && IsDecks(cards[..index], 1)
      ensures card.Some? ==> index == old(index) + 1 && card.value == cards[old(index)]
    {
      if IsEmpty() {
        assert cards[..index] == cards[..];
        return None;
      }
      card := Some(cards[index]);
      index := index + 1;
    }
  }

  /** Several decks dealt from the back; `dealt` is the history of the cards handed out. */
  class Shoe {
    var cards: seq<Card>
    ghost var dealt: seq<Card>

    /** The cards left and the cards handed out are together n whole decks. */
    ghost predicate Splits(n: nat)
      reads this
    {
      IsDecks(cards + dealt, n)
    }

    constructor (nbOfDecks: nat)
      ensures dealt == [] && IsDecks(cards, nbOfDecks) && Splits(nbOfDecks)
    {
      cards := [];
      dealt := [];
      new;
      for i := 0 to nbOfDecks
        invariant dealt == [] && IsDecks(cards, i)
      {
        var deck := FreshDeck();
        DecksAdd(cards, deck, i, 1);
        Append(deck);
      }
      Shuffle();
      assert cards + dealt == cards;
    }

    method Append(deck: seq<Card>)
      modifies this`cards
      ensures cards == old(cards) + deck
    {
      for j := 0 to |deck|
        invariant cards == old(cards) + deck[..j]
      {
        cards := cards + [deck[j]];
      }
    }

    /** std::shuffle: some permutation. */
    method Shuffle()
      modifies this`cards
      ensures multiset(cards) == old(multiset(cards))
    {
      for i := 0 to |cards|
        invariant |cards| == |old(cards)|
        invariant multiset(cards) == old(multiset(cards))
      {
        var j :| 0 <= j <= i;
        cards := cards[i := cards[j]][j := cards[i]];
      }
    }

    /** Pops the last card, or None where the source throws NotEnoughCards: by then every
        card of every deck has been handed out exactly once. */
    method DealCard() returns (card: Option<Card>)
      modifies this
      ensures card.None? <==> old(cards) == []
      ensures card.None? ==> cards == old(cards) && dealt == old(dealt)
      ensures card.Some? ==> old(cards) == cards + [card.value] && dealt == old(dealt) + [card.value]
      ensures forall n :: old(Splits(n)) ==> Splits(n) && (card.None? ==> IsDecks(dealt, n))
    {
      if |cards| == 0 {
        assert cards + dealt == dealt;
        return None;
      }
      card := Some(cards[|cards| - 1]);
      assert cards == cards[..|cards| - 1] + [card.value];
      cards := cards[..|cards| - 1];
      dealt := dealt + [card.value];
      assert multiset(cards + dealt) == old(multiset(cards + dealt));
    }
  }
}
